// The account page (src/pages/Account.jsx): the password-change checks,
// the state the change-password dialog moves through, the test that
// decides whether the profile is sent, and the avatar initials (the admin
// page, src/pages/AdminManagement.jsx, repeats the same getInitials).

module Account {
  import opened Wrappers
  import opened Strings
  import opened Js

  datatype Passwords = Passwords(currentPassword: string, newPassword: string, confirmPassword: string)

  const Cleared := Passwords("", "", "")

  const CurrentMissing := "Vui lòng nhập mật khẩu hiện tại"
  const NewMissing := "Vui lòng nhập mật khẩu mới"
  const NewShort := "Mật khẩu mới phải có ít nhất 6 ký tự"
  const ConfirmMismatch := "Mật khẩu xác nhận không khớp"
  const NewUnchanged := "Mật khẩu mới phải khác mật khẩu hiện tại"

  /** The checks of handleChangePassword in the order it runs them. */
  predicate Check(p: Passwords, k: int)
  {
    if k == 0 then p.currentPassword != ""
    else if k == 1 then p.newPassword != ""
    else if k == 2 then |p.newPassword| >= 6
    else if k == 3 then p.newPassword == p.confirmPassword
    else if k == 4 then p.currentPassword != p.newPassword
    else true
  }

  function Message(k: int): string
  {
    if k == 0 then CurrentMissing
    else if k == 1 then NewMissing
    else if k == 2 then NewShort
    else if k == 3 then ConfirmMismatch
    else NewUnchanged
  }

  /** The first failing check's message, or None. */
  function PasswordError(p: Passwords): (r: Option<string>)
    ensures r.None? <==> forall k :: 0 <= k < 5 ==> Check(p, k)
    ensures r.Some? ==> exists k :: 0 <= k < 5 && !Check(p, k) && r.value == Message(k)
                                    && forall j :: 0 <= j < k ==> Check(p, j)
  {
    if p.currentPassword == "" then
      assert !Check(p, 0);
      Some(CurrentMissing)
    else if p.newPassword == "" then
      assert !Check(p, 1);
      Some(NewMissing)
    else if |p.newPassword| < 6 then
      assert !Check(p, 2);
      Some(NewShort)
    else if p.newPassword != p.confirmPassword then
      assert !Check(p, 3);
      Some(ConfirmMismatch)
    else if p.currentPassword == p.newPassword then
      assert !Check(p, 4);
      Some(NewUnchanged)
    else None
  }

  /** The dialog's part of the page state. */
  datatype Dialog = Dialog(open: bool, error: string, success: string, passwords: Passwords, loading: bool,
                           request: Option<Passwords>)

  /** handleChangePassword up to the request: messages cleared, then
      either the first failure shown, or loading set and the three fields
      sent. */
  function StartChange(d: Dialog): (r: Dialog)
    ensures r.request.None? <==> PasswordError(d.passwords).Some?
    ensures r.request.None? ==> r.loading == d.loading && r.error != ""
    ensures r.request.Some? ==> r.loading && r.request.value == d.passwords && r.error == ""
    ensures r.passwords == d.passwords && r.open == d.open && r.success == ""
  {
    match PasswordError(d.passwords)
    case Some(e) => d.(error := e, success := "", request := None)
    case None => d.(error := "", success := "", loading := true, request := Some(d.passwords))
  }

  const ChangeDone := "Đổi mật khẩu thành công!"

  /** A successful reply: success shown, the three fields emptied. */
  function ChangeSucceeded(d: Dialog): (r: Dialog)
    ensures r.passwords == Cleared && r.success != "" && !r.loading
  {
    d.(success := ChangeDone, passwords := Cleared, loading := false)
  }

  function OpenDialog(d: Dialog): (r: Dialog)
    ensures r.open && r.error == "" && r.success == "" && r.passwords == Cleared
  {
    d.(open := true, error := "", success := "", passwords := Cleared)
  }

  function CloseDialog(d: Dialog): (r: Dialog)
    ensures !r.open && r.error == "" && r.success == "" && r.passwords == Cleared
  {
    d.(open := false, error := "", success := "", passwords := Cleared)
  }

  // ---------------------------------------------------------------------
  // Profile change detection
  // ---------------------------------------------------------------------

  /** The form as the page fills it from the loaded account:
      `accountData.fullName || ""`, `accountData.birthday || ""`. */
  datatype Profile = Profile(fullName: Js, birthday: Js)

  function FormOf(account: Profile): (f: Profile)
    ensures f.fullName.Str? || Truthy(f.fullName)
    ensures Truthy(account.fullName) ==> f.fullName == account.fullName
    ensures !Truthy(account.fullName) ==> f.fullName == Str("")
    ensures Truthy(account.birthday) ==> f.birthday == account.birthday
    ensures !Truthy(account.birthday) ==> f.birthday == Str("")
  {
    Profile(Or(account.fullName, Str("")), Or(account.birthday, Str("")))
  }

  /** handleSubmit as written: the profile is sent when either field is
      not strictly equal to the loaded value. */
  predicate SendsProfileAsWritten(form: Profile, account: Profile)
  {
    form.fullName != account.fullName || form.birthday != account.birthday
  }

  /** An untouched form still sends the profile when the account has no
      birthday: the form holds "" where the account holds null. */
  lemma UntouchedFormSends(account: Profile)
    requires account.birthday == Null
    ensures SendsProfileAsWritten(FormOf(account), account)
  {
  }

  /** The evident intent: send only what the user changed, comparing with
      the form as it was filled from the account. */
  predicate SendsProfile(form: Profile, account: Profile)
  {
    form != FormOf(account)
  }

  /** The corrected test never sends an untouched form, and sends every
      edit; it agrees with the written one on accounts whose fields are
      both non-empty strings. */
  lemma SendsProfileOnlyEdits(form: Profile, account: Profile)
    ensures !SendsProfile(FormOf(account), account)
    ensures SendsProfile(form, account) <==> form.fullName != FormOf(account).fullName
                                             || form.birthday != FormOf(account).birthday
    ensures Truthy(account.fullName) && Truthy(account.birthday) ==>
              (SendsProfile(form, account) <==> SendsProfileAsWritten(form, account))
  {
  }

  // ---------------------------------------------------------------------
  // Initials
  // ---------------------------------------------------------------------

  /** `word.charAt(0)` for each word, joined with "". */
  function Heads(words: seq<string>): (r: string)
    ensures |r| <= |words|
  {
    if words == [] then "" else (if words[0] == "" then "" else [words[0][0]]) + Heads(words[1..])
  }

  /** getInitials: "U" for an empty name, else the upper-cased first
      letters of the space-separated words, two at most. */
  function Initials(name: string): (r: string)
    ensures name == "" ==> r == "U"
    ensures name != "" ==> |r| <= 2
  {
    if name == "" then "U"
    else
      var h := Upper(Heads(Split(name, ' ')));
      if |h| <= 2 then h else h[..2]
  }

  /** A one-word name gives its upper-cased first letter. */
  lemma InitialsOneWord(w: string)
    requires w != "" && ' ' !in w
    ensures Initials(w) == [UpperChar(w[0])]
  {
    assert IndexOfChar(w, ' ') == |w|;
    assert Split(w, ' ') == [w];
  }

  /** A name of only spaces gives no initials at all (not "U"). */
  lemma {:induction false} HeadsOfSpaces(s: string)
    requires forall i :: 0 <= i < |s| ==> s[i] == ' '
    ensures Heads(Split(s, ' ')) == ""
    decreases |s|
  {
    if s != [] {
      assert IndexOfChar(s, ' ') == 0;
      assert Split(s, ' ') == [""] + Split(s[1..], ' ');
      HeadsOfSpaces(s[1..]);
    } else {
      assert Split(s, ' ') == [""];
    }
  }

  lemma InitialsOfSpaces(s: string)
    requires s != "" && forall i :: 0 <= i < |s| ==> s[i] == ' '
    ensures Initials(s) == ""
  {
    HeadsOfSpaces(s);
  }

  /** Splitting at the first space. */
  lemma SplitAtFirst(s: string, k: int)
    requires 0 <= k < |s| && s[k] == ' '
    requires forall i :: 0 <= i < k ==> s[i] != ' '
    ensures Split(s, ' ') == [s[..k]] + Split(s[k + 1..], ' ')
  {
    assert IndexOfChar(s, ' ') == k;
  }

  lemma SplitNoSpace(s: string)
    requires ' ' !in s
    ensures Split(s, ' ') == [s]
  {
    assert IndexOfChar(s, ' ') == |s|;
  }

  lemma HeadsTwo(a: string, b: string, more: seq<string>)
    requires a != "" && b != ""
    ensures Heads([a, b] + more) == [a[0], b[0]] + Heads(more)
  {
    var ws := [a, b] + more;
    assert ws[0] == a && ws[1..] == [b] + more;
    assert ([b] + more)[0] == b && ([b] + more)[1..] == more;
  }

  /** A word, then a space or nothing. */
  lemma SplitWordThen(w: string, t: string)
    requires ' ' !in w
    requires t == "" || t[0] == ' '
    ensures Split(w + t, ' ') == [w] + (if t == "" then [] else Split(t[1..], ' '))
  {
    var s := w + t;
    if t == "" {
      assert s == w;
      SplitNoSpace(w);
    } else {
      assert s[|w|] == ' ' && s[..|w|] == w && s[|w| + 1..] == t[1..];
      SplitAtFirst(s, |w|);
    }
  }

  lemma SplitTwoWords(a: string, b: string, rest: string)
    requires ' ' !in a && ' ' !in b
    requires rest == "" || rest[0] == ' '
    ensures Split(a + " " + b + rest, ' ') == [a, b] + (if rest == "" then [] else Split(rest[1..], ' '))
  {
    var t := " " + b + rest;
    assert a + " " + b + rest == a + t && t[1..] == b + rest;
    SplitWordThen(a, t);
    SplitWordThen(b, rest);
  }

  /** "First Second …": the first letters of the first two words. */
  lemma InitialsTwoWords(a: string, b: string, rest: string)
    requires a != "" && ' ' !in a && b != "" && ' ' !in b
    requires rest == "" || rest[0] == ' '
    ensures Initials(a + " " + b + rest) == [UpperChar(a[0]), UpperChar(b[0])]
  {
    var more: seq<string> := if rest == "" then [] else Split(rest[1..], ' ');
    SplitTwoWords(a, b, rest);
    HeadsTwo(a, b, more);
    var u := Upper([a[0], b[0]] + Heads(more));
    assert Initials(a + " " + b + rest) == (if |u| <= 2 then u else u[..2]);
    assert u[0] == UpperChar(a[0]) && u[1] == UpperChar(b[0]);
    FirstTwo(u);
  }
}
