/**
 * The contact-form validation shared by the main page and the Contact page:
 * required fields, the email pattern `^[^\s@]+@[^\s@]+\.[^\s@]+$` and a
 * minimum message length, and the submit handler that resets the form.
 * The two pages differ only in their error texts.
 */
module Forms {
  import opened Common
  import opened Text

  /** A character of the pattern's class `[^\s@]`. */
  predicate Plain(c: char) {
    !IsSpace(c) && c != '@'
  }

  predicate AllPlain(s: string) {
    forall i :: 0 <= i < |s| ==> Plain(s[i])
  }

  /**
   * What the pattern matches, read off its structure: a non-empty plain local
   * part, '@' at `a`, a non-empty plain run, '.' at `b`, a non-empty plain run.
   */
  predicate MatchesAt(s: string, a: int, b: int) {
    && 0 < a && a + 1 < b && b + 1 < |s|
    && s[a] == '@' && s[b] == '.'
    && AllPlain(s[..a]) && AllPlain(s[a + 1..b]) && AllPlain(s[b + 1..])
  }

  /** `/^[^\s@]+@[^\s@]+\.[^\s@]+$/.test(s)`. */
  ghost predicate EmailPattern(s: string) {
    exists a, b :: MatchesAt(s, a, b)
  }

  /** JavaScript's `s.indexOf(c)`: the first position of `c`, or -1. */
  function IndexOf(s: string, c: char): (r: int)
    ensures -1 <= r < |s|
    ensures r >= 0 ==> s[r] == c
    ensures forall i :: 0 <= i < |s| && (r == -1 || i < r) ==> s[i] != c
    decreases |s|
  {
    if |s| == 0 then -1
    else if s[0] == c then 0
    else
      var k := IndexOf(s[1..], c);
      if k == -1 then -1 else k + 1
  }

  /** A '.' with at least one character on each side. */
  predicate InnerDot(d: string) {
    exists k :: 0 < k < |d| - 1 && d[k] == '.'
  }

  /** The shape of an accepted address: no white space, exactly one '@' with text before it, and an inner '.' after it. */
  predicate EmailShape(s: string) {
    var a := IndexOf(s, '@');
    && NoSpace(s)
    && a > 0
    && (forall i :: a < i < |s| ==> s[i] != '@')
    && InnerDot(s[a + 1..])
  }

  /** Every position of a plain slice holds a plain character. */
  lemma PlainSlice(s: string, lo: int, hi: int, i: int)
    requires 0 <= lo <= i < hi <= |s|
    requires AllPlain(s[lo..hi])
    ensures Plain(s[i])
  {
    assert s[lo..hi][i - lo] == s[i];
  }

  /** A slice all of whose positions are plain is plain. */
  lemma SliceAllPlain(s: string, lo: int, hi: int)
    requires 0 <= lo <= hi <= |s|
    requires forall i :: lo <= i < hi ==> Plain(s[i])
    ensures AllPlain(s[lo..hi])
  {
    var t := s[lo..hi];
    forall i | 0 <= i < |t| ensures Plain(t[i]) { assert t[i] == s[lo + i]; }
  }

  lemma ShapeMatches(s: string)
    requires EmailShape(s)
    ensures EmailPattern(s)
  {
    var a := IndexOf(s, '@');
    var d := s[a + 1..];
    var k :| 0 < k < |d| - 1 && d[k] == '.';
    var b := a + 1 + k;
    assert s[b] == d[k];
    SliceAllPlain(s, 0, a);
    SliceAllPlain(s, a + 1, b);
    SliceAllPlain(s, b + 1, |s|);
    assert MatchesAt(s, a, b);
  }

  lemma MatchHasShape(s: string, a: int, b: int)
    requires MatchesAt(s, a, b)
    ensures EmailShape(s)
  {
    forall i | 0 <= i < |s| && i != a && i != b ensures Plain(s[i]) {
      if i < a { PlainSlice(s, 0, a, i); }
      else if i < b { PlainSlice(s, a + 1, b, i); }
      else { PlainSlice(s, b + 1, |s|, i); }
    }
    assert IndexOf(s, '@') == a;
    assert s[a + 1..][b - (a + 1)] == '.';
  }

  /** The shape description and the pattern accept exactly the same strings. */
  lemma EmailShapeIffPattern(s: string)
    ensures EmailShape(s) <==> EmailPattern(s)
  {
    if EmailShape(s) {
      ShapeMatches(s);
    }
    if EmailPattern(s) {
      var a, b :| MatchesAt(s, a, b);
      MatchHasShape(s, a, b);
    }
  }

  datatype Form = Form(name: string, email: string, message: string)

  const EmptyForm: Form := Form("", "", "")

  /** Minimum trimmed message length. */
  const MinMessageLength: nat := 10

  /** The error texts of one page. */
  datatype Messages = Messages(nameRequired: string, emailRequired: string, emailInvalid: string, messageRequired: string, messageTooShort: string)

  /** The `errors` object: at most one text per field. */
  datatype Errors = Errors(name: Option<string>, email: Option<string>, message: Option<string>)

  /** `Object.keys(newErrors).length === 0`. */
  predicate NoErrors(e: Errors) {
    e.name.None? && e.email.None? && e.message.None?
  }

  /** `validate()`: the errors recorded for a form. */
  function Validate(f: Form, msgs: Messages): (e: Errors)
    ensures e.name.Some? <==> Trim(f.name) == ""
    ensures e.name.Some? ==> e.name.value == msgs.nameRequired
    ensures Trim(f.email) == "" ==> e.email == Some(msgs.emailRequired)
    ensures Trim(f.email) != "" ==> (e.email.Some? <==> !EmailPattern(f.email))
    ensures Trim(f.email) != "" && e.email.Some? ==> e.email.value == msgs.emailInvalid
    ensures Trim(f.message) == "" ==> e.message == Some(msgs.messageRequired)
    ensures Trim(f.message) != "" ==> (e.message.Some? <==> |Trim(f.message)| < MinMessageLength)
    ensures Trim(f.message) != "" && e.message.Some? ==> e.message.value == msgs.messageTooShort
  {
    EmailShapeIffPattern(f.email);
    var name := if Trim(f.name) == "" then Some(msgs.nameRequired) else None;
    var email :=
      if Trim(f.email) == "" then Some(msgs.emailRequired)
      else if !EmailShape(f.email) then Some(msgs.emailInvalid)
      else None;
    var message :=
      if Trim(f.message) == "" then Some(msgs.messageRequired)
      else if |Trim(f.message)| < MinMessageLength then Some(msgs.messageTooShort)
      else None;
    Errors(name, email, message)
  }

  /** A form is accepted iff the trimmed name is non-empty, the trimmed email is non-empty and the raw email matches the pattern, and the trimmed message has at least 10 characters. */
  lemma AcceptedIff(f: Form, msgs: Messages)
    ensures NoErrors(Validate(f, msgs)) <==>
      && Trim(f.name) != ""
      && Trim(f.email) != "" && EmailPattern(f.email)
      && |Trim(f.message)| >= MinMessageLength
  {
  }

  /** Whether a form is accepted does not depend on the error texts. */
  lemma AcceptanceIgnoresTexts(f: Form, m1: Messages, m2: Messages)
    ensures NoErrors(Validate(f, m1)) == NoErrors(Validate(f, m2))
  {
  }

  /** The pattern is tested on the untrimmed email: white space around an otherwise valid address makes it invalid. */
  lemma SurroundingSpaceIsInvalid(f: Form, msgs: Messages)
    requires |f.email| > 0 && IsSpace(f.email[0])
    requires Trim(f.email) != ""
    ensures Validate(f, msgs).email == Some(msgs.emailInvalid)
  {
    if EmailPattern(f.email) {
      var a, b :| MatchesAt(f.email, a, b);
    }
  }

  /** The state of a contact form. */
  datatype FormState = FormState(form: Form, errors: Errors, submitting: bool, success: bool)

  /**
   * `handleSubmit`: record the errors; stop when there are any; otherwise,
   * after the simulated send, report success and clear the form.
   */
  function HandleSubmit(s: FormState, msgs: Messages): (r: FormState)
    ensures r.errors == Validate(s.form, msgs)
    ensures !NoErrors(r.errors) ==> r.form == s.form && r.submitting == s.submitting && r.success == s.success
    ensures NoErrors(r.errors) ==> r.form == EmptyForm && r.success && !r.submitting
  {
    var e := Validate(s.form, msgs);
    if !NoErrors(e) then s.(errors := e)
    else FormState(EmptyForm, e, false, true)
  }

  /** The success banner's timer: it hides the banner and touches nothing else. */
  function DismissSuccess(s: FormState): (r: FormState)
    ensures !r.success && r.form == s.form && r.errors == s.errors && r.submitting == s.submitting
  {
    s.(success := false)
  }

  /** The form as first rendered: empty fields, no errors, idle, no banner. */
  const Initial: FormState := FormState(EmptyForm, Errors(None, None, None), false, false)

  /** An accepted submission, once its banner times out, leaves the form exactly as first rendered. */
  lemma SuccessReturnsToInitial(s: FormState, msgs: Messages)
    requires NoErrors(Validate(s.form, msgs))
    ensures DismissSuccess(HandleSubmit(s, msgs)) == Initial
  {
  }

  /** Submitting the cleared form again reports every field as required. */
  lemma ClearedFormIsRejected(msgs: Messages)
    ensures Validate(EmptyForm, msgs) == Errors(Some(msgs.nameRequired), Some(msgs.emailRequired), Some(msgs.messageRequired))
  {
    assert Trim("") == "";
  }
}
