// The sign-up form (src/pages/Register.jsx): validateForm's ordered checks
// and the body the form posts to /api/auth/register.

module Register {
  import opened Wrappers
  import opened Js
  import opened Strings

  datatype Form = Form(fullName: string, email: string, password: string, confirmPassword: string)

  const UsernameMissing := "Vui lòng nhập username"
  const EmailMissing := "Vui lòng nhập email"
  const EmailInvalid := "Email không hợp lệ"
  const PasswordShort := "Mật khẩu phải có ít nhất 6 ký tự"
  const PasswordMismatch := "Mật khẩu xác nhận không khớp"
  const TermsRequired := "Vui lòng đồng ý với điều khoản sử dụng"

  /** One match of `\S+@\S+\.\S+` in s: the '@' at `at` with a non-space
      before it, the '.' at `dot`, non-space characters strictly between
      them (at least one), and a non-space after the dot. */
  predicate EmailMatchAt(s: string, at: int, dot: int)
  {
    1 <= at && at + 1 < dot && dot + 1 < |s|
    && s[at] == '@' && s[dot] == '.'
    && !IsJsSpace(s[at - 1]) && !IsJsSpace(s[dot + 1])
    && forall i :: at < i < dot ==> !IsJsSpace(s[i])
  }

  /** `/\S+@\S+\.\S+/.test(s)`: the pattern is not anchored, so a match
      anywhere in s will do. */
  predicate EmailShape(s: string)
  {
    exists at, dot :: 0 <= at < dot < |s| && EmailMatchAt(s, at, dot)
  }

  /** validateForm: the message of the first failing check, or None when
      the form may be sent. */
  function Validate(f: Form, agreeToTerms: bool): (r: Option<string>)
    ensures r.None? <==> forall k :: 0 <= k < 6 ==> Check(f, agreeToTerms, k)
    ensures r.Some? ==> exists k :: 0 <= k < 6 && !Check(f, agreeToTerms, k) && r.value == Message(k)
                                    && forall j :: 0 <= j < k ==> Check(f, agreeToTerms, j)
  {
    var k := FirstFailing(f, agreeToTerms, 0);
    if k < 6 then Some(Message(k)) else None
  }

  /** The checks from the k-th on are run in order; the index of the first
      one that fails, or 6 when they all pass. */
  function FirstFailing(f: Form, agreeToTerms: bool, k: nat): (n: nat)
    requires k <= 6
    ensures k <= n <= 6
    ensures n < 6 ==> !Check(f, agreeToTerms, n)
    ensures forall j :: k <= j < n ==> Check(f, agreeToTerms, j)
    decreases 6 - k
  {
    if k == 6 || !Check(f, agreeToTerms, k) then k else FirstFailing(f, agreeToTerms, k + 1)
  }

  /** The checks of the form in the order the page runs them. */
  predicate Check(f: Form, agreeToTerms: bool, k: int)
  {
    if k == 0 then Trim(f.fullName) != ""
    else if k == 1 then Trim(f.email) != ""
    else if k == 2 then EmailShape(f.email)
    else if k == 3 then |f.password| >= 6
    else if k == 4 then f.password == f.confirmPassword
    else if k == 5 then agreeToTerms
    else true
  }

  function Message(k: int): string
  {
    if k == 0 then UsernameMissing
    else if k == 1 then EmailMissing
    else if k == 2 then EmailInvalid
    else if k == 3 then PasswordShort
    else if k == 4 then PasswordMismatch
    else TermsRequired
  }

  datatype Payload = Payload(username: string, email: string, password: string)

  /** The JSON body: name and email trimmed, the password as typed. */
  function PayloadOf(f: Form): (p: Payload)
    ensures p.username == Trim(f.fullName) && p.email == Trim(f.email) && p.password == f.password
  {
    Payload(Trim(f.fullName), Trim(f.email), f.password)
  }

  /** handleSubmit up to the request: the error shown, or the body sent. */
  datatype Submission = Rejected(error: string) | Sent(body: Payload)

  function Submit(f: Form, agreeToTerms: bool): (r: Submission)
    ensures r.Rejected? <==> Validate(f, agreeToTerms).Some?
  {
    match Validate(f, agreeToTerms)
    case Some(e) => Rejected(e)
    case None => Sent(PayloadOf(f))
  }

  /** The reply: success, or `data?.message || data?.detail ||` a default
      text when the status is not ok; `data` is {} when the body is not
      JSON. */
  const RegisterFailed := "Đăng ký thất bại. Vui lòng thử lại."
  const RegisterDone := "Đăng ký thành công! Chuyển đến trang đăng nhập..."

  datatype Reply = Refused(error: Js) | Succeeded(success: string)

  function ReplyOf(ok: bool, data: Js): (r: Reply)
    ensures ok <==> r.Succeeded?
    ensures r.Refused? ==> Truthy(r.error)
  {
    if ok then Succeeded(RegisterDone)
    else Refused(Or(OptField(data, "message"), Or(OptField(data, "detail"), Str(RegisterFailed))))
  }

  // ---------------------------------------------------------------------
  // Properties
  // ---------------------------------------------------------------------

  /** A whitespace-only name or email is refused, though the untrimmed
      value is not empty. */
  lemma BlankNameRejected(f: Form, agreeToTerms: bool)
    requires IsJsBlank(f.fullName)
    ensures Validate(f, agreeToTerms) == Some(UsernameMissing)
  {
    TrimEmptyIffBlank(f.fullName);
    assert !Check(f, agreeToTerms, 0);
  }

  lemma BlankEmailRejected(f: Form, agreeToTerms: bool)
    requires !IsJsBlank(f.fullName) && IsJsBlank(f.email)
    ensures Validate(f, agreeToTerms) == Some(EmailMissing)
  {
    TrimEmptyIffBlank(f.fullName);
    TrimEmptyIffBlank(f.email);
    assert Check(f, agreeToTerms, 0) && !Check(f, agreeToTerms, 1);
    assert FirstFailing(f, agreeToTerms, 1) == 1;
  }

  /** A match lies on non-space characters only, from `at - 1` to
      `dot + 1`. */
  lemma MatchOnNonSpace(s: string, at: int, dot: int, i: int)
    requires EmailMatchAt(s, at, dot) && at - 1 <= i <= dot + 1
    ensures !IsJsSpace(s[i])
  {
    if i == at {
      assert s[i] == '@';
    } else if i == dot {
      assert s[i] == '.';
    }
  }

  /** Cutting away spaces around a string keeps its email matches. */
  lemma {:induction false} ShapeOfSlice(s: string, a: int, b: int)
    requires 0 <= a <= b <= |s|
    requires forall i :: 0 <= i < |s| && !IsJsSpace(s[i]) ==> a <= i < b
    ensures EmailShape(s[a..b]) <==> EmailShape(s)
  {
    var t := s[a..b];
    if EmailShape(s) {
      var at, dot :| 0 <= at < dot < |s| && EmailMatchAt(s, at, dot);
      MatchOnNonSpace(s, at, dot, at - 1);
      MatchOnNonSpace(s, at, dot, dot + 1);
      assert EmailMatchAt(t, at - a, dot - a) by {
        forall i | at - a < i < dot - a
          ensures !IsJsSpace(t[i])
        {
          assert t[i] == s[i + a];
        }
      }
    }
    if EmailShape(t) {
      var at, dot :| 0 <= at < dot < |t| && EmailMatchAt(t, at, dot);
      assert EmailMatchAt(s, at + a, dot + a) by {
        forall i | at + a < i < dot + a
          ensures !IsJsSpace(s[i])
        {
          assert s[i] == t[i - a];
        }
      }
    }
  }

  /** Trim(s) is s with its leading and trailing spaces cut off. */
  lemma TrimIsSlice(s: string) returns (a: int)
    ensures 0 <= a <= a + |Trim(s)| <= |s|
    ensures Trim(s) == s[a..a + |Trim(s)|]
    ensures forall i :: 0 <= i < |s| && !IsJsSpace(s[i]) ==> a <= i < a + |Trim(s)|
  {
    a := |s| - |TrimStart(s)|;
    TrimSlice(s, a);
    TrimCoversNonSpace(s, a);
  }

  lemma TrimSlice(s: string, a: int)
    requires a == |s| - |TrimStart(s)|
    ensures 0 <= a <= a + |Trim(s)| <= |s|
    ensures Trim(s) == s[a..a + |Trim(s)|]
  {
    var u := TrimStart(s);
    var t := TrimEnd(u);
    SliceOfSuffix(s, a, |t|);
  }

  lemma TrimCoversNonSpace(s: string, a: int)
    requires a == |s| - |TrimStart(s)|
    ensures forall i :: 0 <= i < |s| && !IsJsSpace(s[i]) ==> a <= i < a + |Trim(s)|
  {
    forall i | 0 <= i < |s| && !IsJsSpace(s[i])
      ensures a <= i < a + |Trim(s)|
    {
      NonSpaceInside(s, i);
    }
  }

  lemma NonSpaceInside(s: string, i: int)
    requires 0 <= i < |s| && !IsJsSpace(s[i])
    ensures |s| - |TrimStart(s)| <= i < |s| - |TrimStart(s)| + |Trim(s)|
  {
    var u := TrimStart(s);
    var a := |s| - |u|;
    assert i >= a;
    assert u[i - a] == s[i];
  }

  /** The email the form sends has the shape the form checked: testing the
      untrimmed value and sending the trimmed one agree. */
  lemma TrimmedEmailShape(s: string)
    ensures EmailShape(Trim(s)) <==> EmailShape(s)
  {
    var a := TrimIsSlice(s);
    ShapeOfSlice(s, a, a + |Trim(s)|);
  }

  /** A sent body carries a non-blank name and a well-shaped email, and a
      password of at least six characters that matched its confirmation. */
  lemma SentBodyValid(f: Form, agreeToTerms: bool)
    requires Submit(f, agreeToTerms).Sent?
    ensures var p := Submit(f, agreeToTerms).body;
            p.username != "" && p.email != "" && EmailShape(p.email)
            && |p.password| >= 6 && p.password == f.confirmPassword && agreeToTerms
  {
    assert forall k :: 0 <= k < 6 ==> Check(f, agreeToTerms, k);
    assert Check(f, agreeToTerms, 0) && Check(f, agreeToTerms, 1) && Check(f, agreeToTerms, 2);
    assert Check(f, agreeToTerms, 3) && Check(f, agreeToTerms, 4) && Check(f, agreeToTerms, 5);
    TrimmedEmailShape(f.email);
  }

  /** The sent name and email carry no leading or trailing whitespace, so
      trimming them again on the server changes nothing. */
  lemma SentBodyTrimmed(f: Form, agreeToTerms: bool)
    requires Submit(f, agreeToTerms).Sent?
    ensures IsTrimmed(Submit(f, agreeToTerms).body.username) && IsTrimmed(Submit(f, agreeToTerms).body.email)
  {
    assert Submit(f, agreeToTerms).body == PayloadOf(f);
    TrimmedEnds(f.fullName);
    TrimmedEnds(f.email);
  }

  /** Neither '@' nor '.' missing, and at least five characters, whenever
      the email has the shape. */
  lemma ShapeNeeds(s: string)
    requires EmailShape(s)
    ensures '@' in s && '.' in s && |s| >= 5
  {
    var at, dot :| 0 <= at < dot < |s| && EmailMatchAt(s, at, dot);
  }
}
