/**
 * The newsletter and contact forms: each field is trimmed, the checks run in
 * a fixed order, the first that fails decides the alert, and only a form that
 * passes them all is thanked and reset.
 */
module Forms {
  import opened Text
  import opened Notices

  /** A character of the regular-expression class `[^\s@]`. */
  predicate Plain(c: char) {
    !IsSpace(c) && c != '@'
  }

  predicate AllPlain(s: string) {
    forall k | 0 <= k < |s| :: Plain(s[k])
  }

  /**
   * The language of `/^[^\s@]+@[^\s@]+\.[^\s@]+$/`: a non-empty plain run,
   * `@` at `i`, a non-empty plain run, `.` at `j`, a non-empty plain run.
   */
  predicate EmailRegex(s: string) {
    exists i, j | 0 < i && i + 1 < j && j + 1 < |s| ::
      s[i] == '@' && s[j] == '.' && AllPlain(s[..i]) && AllPlain(s[i + 1..j]) && AllPlain(s[j + 1..])
  }

  /** `d` has a `.` with at least one character on each side of it. */
  predicate HasInnerDot(d: string) {
    exists k | 0 < k < |d| - 1 :: d[k] == '.'
  }

  /**
   * An address as a person would describe it: no whitespace, exactly one
   * `@`, something before it, and after it a `.` with text on both sides.
   */
  predicate WellFormedEmail(s: string) {
    && (forall k | 0 <= k < |s| :: !IsSpace(s[k]))
    && exists at | 0 < at < |s| ::
         && s[at] == '@'
         && (forall k | 0 <= k < |s| && k != at :: s[k] != '@')
         && HasInnerDot(s[at + 1..])
  }

  /** Every address the email test accepts is well formed. */
  lemma RegexMatchIsWellFormed(s: string, i: nat, j: nat)
    requires 0 < i && i + 1 < j && j + 1 < |s| && s[i] == '@' && s[j] == '.'
    requires AllPlain(s[..i]) && AllPlain(s[i + 1..j]) && AllPlain(s[j + 1..])
    ensures WellFormedEmail(s)
  {
    forall k | 0 <= k < |s| && k != i && k != j ensures Plain(s[k]) {
      if k < i {
        assert s[k] == s[..i][k];
      } else if k < j {
        assert s[k] == s[i + 1..j][k - i - 1];
      } else {
        assert s[k] == s[j + 1..][k - j - 1];
      }
    }
    assert !IsSpace('@') && !IsSpace('.');
    assert s[i + 1..][j - i - 1] == '.';
    assert HasInnerDot(s[i + 1..]);
  }

  /** Every well-formed address passes the email test. */
  lemma WellFormedMatchesRegex(s: string)
    requires WellFormedEmail(s)
    ensures EmailRegex(s)
  {
    var at :| 0 < at < |s| && s[at] == '@' && (forall k | 0 <= k < |s| && k != at :: s[k] != '@')
              && HasInnerDot(s[at + 1..]);
    var d := s[at + 1..];
    var k :| 0 < k < |d| - 1 && d[k] == '.';
    var j := at + 1 + k;
    assert s[j] == '.';
    assert AllPlain(s[..at]);
    assert AllPlain(s[at + 1..j]);
    assert AllPlain(s[j + 1..]);
  }

  /** The email test accepts exactly the well-formed addresses. */
  lemma EmailRegexIff(s: string)
    ensures EmailRegex(s) <==> WellFormedEmail(s)
  {
    if EmailRegex(s) {
      var i, j :| 0 < i && i + 1 < j && j + 1 < |s| && s[i] == '@' && s[j] == '.'
                  && AllPlain(s[..i]) && AllPlain(s[i + 1..j]) && AllPlain(s[j + 1..]);
      RegexMatchIsWellFormed(s, i, j);
    }
    if WellFormedEmail(s) {
      WellFormedMatchesRegex(s);
    }
  }

  /** What a submission leads to: the alert shown, and whether the form is reset. */
  datatype Verdict = Verdict(notice: Notice, reset: bool)

  /** The newsletter form's submit handler, given the email field's raw value. */
  function SubmitNewsletter(emailField: string): (v: Verdict)
    ensures v.notice == EnterEmail <==> AllSpace(emailField)
    ensures v.notice == InvalidEmail <==> !AllSpace(emailField) && !WellFormedEmail(Trim(emailField))
    ensures v.notice == Subscribed <==> WellFormedEmail(Trim(emailField))
    ensures v.reset <==> v.notice == Subscribed
  {
    var email := Trim(emailField);
    TrimBlankIff(emailField);
    EmailRegexIff(email);
    if email == [] then Verdict(EnterEmail, false)
    else if !EmailRegex(email) then Verdict(InvalidEmail, false)
    else Verdict(Subscribed, true)
  }

  /** The contact form's submit handler, given the three fields' raw values. */
  function SubmitContact(nameField: string, emailField: string, messageField: string): (v: Verdict)
    ensures v.notice == EnterName <==> AllSpace(nameField)
    ensures v.notice == EnterEmail <==> !AllSpace(nameField) && AllSpace(emailField)
    ensures v.notice == InvalidEmail <==>
              !AllSpace(nameField) && !AllSpace(emailField) && !WellFormedEmail(Trim(emailField))
    ensures v.notice == EnterMessage <==>
              !AllSpace(nameField) && WellFormedEmail(Trim(emailField)) && AllSpace(messageField)
    ensures v.notice == MessageSent <==>
              !AllSpace(nameField) && WellFormedEmail(Trim(emailField)) && !AllSpace(messageField)
    ensures v.reset <==> v.notice == MessageSent
  {
    var name := Trim(nameField);
    var email := Trim(emailField);
    var message := Trim(messageField);
    TrimBlankIff(nameField);
    TrimBlankIff(emailField);
    TrimBlankIff(messageField);
    EmailRegexIff(email);
    if name == [] then Verdict(EnterName, false)
    else if email == [] then Verdict(EnterEmail, false)
    else if !EmailRegex(email) then Verdict(InvalidEmail, false)
    else if message == [] then Verdict(EnterMessage, false)
    else Verdict(MessageSent, true)
  }

  /**
   * With a name and a message filled in, the contact form judges the email
   * exactly as the newsletter form does.
   */
  lemma ContactAgreesWithNewsletter(nameField: string, emailField: string, messageField: string)
    requires !AllSpace(nameField) && !AllSpace(messageField)
    ensures SubmitContact(nameField, emailField, messageField).reset
            == SubmitNewsletter(emailField).reset
    ensures !SubmitNewsletter(emailField).reset ==>
              SubmitContact(nameField, emailField, messageField).notice
              == SubmitNewsletter(emailField).notice
  {
  }
}
