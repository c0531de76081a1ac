/**
  `validate_contact_form` and the contact record `lambda_handler` builds from
  a form that passed it.

  A form is the decoded request body as a dictionary of strings; `.get(key,
  '')` on it is `DictGet`. Each condition the validator reports is a
  `Problem` with its message `Text`. The problems are specified twice: in the
  order the source tests them (`ContactProblems`, one test after another), and
  as a rule table (`Fails`) filtered in the fixed order `Order`; the two are
  proved equal.
 */
module ContactForm {
  import opened PyText
  import opened EmailFormat
  import opened Sanitizer
  import opened Wrappers

  type Form = map<string, string>

  /** The conditions validate_contact_form reports, one per message. */
  datatype Problem =
    | NameMissing | EmailMissing | EmailMalformed | MessageMissing
    | NameTooLong | SubjectTooLong | MessageTooLong

  const NameRequired := "Name is required"
  const EmailRequired := "Email is required"
  const EmailInvalid := "Invalid email format"
  const MessageRequired := "Message is required"
  const NameTooLongText := "Name must be less than 200 characters"
  const SubjectTooLongText := "Subject must be less than 500 characters"
  const MessageTooLongText := "Message must be less than 10,000 characters"

  /** The message appended for each problem. */
  function Text(p: Problem): string {
    match p
    case NameMissing => NameRequired
    case EmailMissing => EmailRequired
    case EmailMalformed => EmailInvalid
    case MessageMissing => MessageRequired
    case NameTooLong => NameTooLongText
    case SubjectTooLong => SubjectTooLongText
    case MessageTooLong => MessageTooLongText
  }

  /** The problem a message reports, if it is one of the seven. */
  function ProblemOf(m: string): (r: Option<Problem>)
    ensures r.Some? ==> Text(r.value) == m
  {
    if m == Text(NameMissing) then Some(NameMissing)
    else if m == Text(EmailMissing) then Some(EmailMissing)
    else if m == Text(EmailMalformed) then Some(EmailMalformed)
    else if m == Text(MessageMissing) then Some(MessageMissing)
    else if m == Text(NameTooLong) then Some(NameTooLong)
    else if m == Text(SubjectTooLong) then Some(SubjectTooLong)
    else if m == Text(MessageTooLong) then Some(MessageTooLong)
    else None
  }

  /** Each message names its own problem. */
  lemma ProblemOfText(p: Problem)
    ensures ProblemOf(Text(p)) == Some(p)
  {
    assert |Text(NameMissing)| == 16 && |Text(EmailMissing)| == 17 && |Text(EmailMalformed)| == 20;
    assert |Text(MessageMissing)| == 19 && |Text(NameTooLong)| == 37 && |Text(SubjectTooLong)| == 40;
  }

  /** Different problems have different messages. */
  lemma TextInjective(p: Problem, q: Problem)
    ensures Text(p) == Text(q) ==> p == q
  {
    ProblemOfText(p);
    ProblemOfText(q);
  }

  /** Every problem, in the order the validator tests them. */
  const Order := [NameMissing, EmailMissing, EmailMalformed, MessageMissing, NameTooLong, SubjectTooLong, MessageTooLong]

  /** The position of a problem in the fixed order. */
  function Rank(p: Problem): (i: nat)
    ensures i < |Order| && Order[i] == p
  {
    match p
    case NameMissing => 0
    case EmailMissing => 1
    case EmailMalformed => 2
    case MessageMissing => 3
    case NameTooLong => 4
    case SubjectTooLong => 5
    case MessageTooLong => 6
  }

  /** The longest raw name, subject and message a valid form may have. */
  const MaxName := 200
  const MaxSubject := 500
  const MaxMessage := 10000

  function Name(d: Form): string { DictGet(d, "name", "") }
  function Email(d: Form): string { DictGet(d, "email", "") }
  function Subject(d: Form): string { DictGet(d, "subject", "") }
  function Message(d: Form): string { DictGet(d, "message", "") }

  // ---------------------------------------------------------------------------
  // The rules and the validator
  // ---------------------------------------------------------------------------

  /** Nothing but whitespace: the text `strip()` turns into the empty string. */
  predicate Blank(s: string) {
    forall k :: 0 <= k < |s| ==> IsSpace(s[k])
  }

  /** Python's `not s.strip()`. */
  lemma StripEmptyIffBlank(s: string)
    ensures Strip(s) == [] <==> Blank(s)
  {
    StripEmpty(s);
  }

  /** What the validator looks at in a form: which required fields are blank, whether the email matches, and the raw lengths. */
  datatype Facts = Facts(
    nameBlank: bool,
    emailBlank: bool,
    emailValid: bool,
    messageBlank: bool,
    nameLength: nat,
    subjectLength: nat,
    messageLength: nat)

  function FactsOf(d: Form): Facts {
    Facts(Blank(Name(d)), Blank(Email(d)), ValidateEmail(Email(d)), Blank(Message(d)),
      |Name(d)|, |Subject(d)|, |Message(d)|)
  }

  /** The rule behind each problem: a required field is missing when it is blank; the email pattern is tested only on a non-blank email; the caps are tested on the raw values. */
  predicate Fails(f: Facts, p: Problem) {
    match p
    case NameMissing => f.nameBlank
    case EmailMissing => f.emailBlank
    case EmailMalformed => !f.emailBlank && !f.emailValid
    case MessageMissing => f.messageBlank
    case NameTooLong => f.nameLength > MaxName
    case SubjectTooLong => f.subjectLength > MaxSubject
    case MessageTooLong => f.messageLength > MaxMessage
  }

  /** The problems found by the first k tests, in the order they are tested. */
  function ProblemsAfter(f: Facts, k: nat): (r: seq<Problem>)
    requires k <= |Order|
    ensures |r| <= k
  {
    if k == 0 then []
    else ProblemsAfter(f, k - 1) + (if Fails(f, Order[k - 1]) then [Order[k - 1]] else [])
  }

  /** The problems validate_contact_form finds in d. */
  function ContactProblems(d: Form): seq<Problem> {
    ProblemsAfter(FactsOf(d), |Order|)
  }

  /** The messages of a list of problems. */
  function Texts(ps: seq<Problem>): (r: seq<string>)
    ensures |r| == |ps|
  {
    seq(|ps|, k requires 0 <= k < |ps| => Text(ps[k]))
  }

  /** The errors validate_contact_form returns for d. */
  function ContactErrors(d: Form): seq<string> {
    Texts(ContactProblems(d))
  }

  lemma TextsSnoc(ps: seq<Problem>, p: Problem)
    ensures Texts(ps + [p]) == Texts(ps) + [Text(p)]
  {
  }

  /** The messages of the first k tests. */
  function ErrorsAfter(f: Facts, k: nat): seq<string>
    requires k <= |Order|
  {
    Texts(ProblemsAfter(f, k))
  }

  /** One test: the message of Order[k] is appended exactly when its rule fails. */
  lemma TestStep(f: Facts, k: nat, before: seq<string>, after: seq<string>)
    requires k < |Order| && before == ErrorsAfter(f, k)
    requires after == if Fails(f, Order[k]) then before + [Text(Order[k])] else before
    ensures after == ErrorsAfter(f, k + 1)
  {
    if Fails(f, Order[k]) { TextsSnoc(ProblemsAfter(f, k), Order[k]); } else { assert ProblemsAfter(f, k) + [] == ProblemsAfter(f, k); }
  }

  lemma NameStep(d: Form, before: seq<string>, after: seq<string>)
    requires before == []
    requires after == if Strip(Name(d)) == [] then before + [NameRequired] else before
    ensures after == ErrorsAfter(FactsOf(d), 1)
  {
    StripEmptyIffBlank(Name(d));
    TestStep(FactsOf(d), 0, before, after);
  }

  lemma EmailStep(d: Form, before: seq<string>, after: seq<string>)
    requires before == ErrorsAfter(FactsOf(d), 1)
    requires after == if Strip(Email(d)) == [] then before + [EmailRequired]
      else if !ValidateEmail(Email(d)) then before + [EmailInvalid] else before
    ensures after == ErrorsAfter(FactsOf(d), 3)
  {
    var f := FactsOf(d);
    StripEmptyIffBlank(Email(d));
    if f.emailBlank {
      EmailTests(f, before, before + [EmailRequired], after);
    } else {
      EmailTests(f, before, before, after);
    }
  }

  /** The two email tests: missing, else malformed. */
  lemma EmailTests(f: Facts, before: seq<string>, mid: seq<string>, after: seq<string>)
    requires before == ErrorsAfter(f, 1)
    requires mid == if f.emailBlank then before + [EmailRequired] else before
    requires after == if !f.emailBlank && !f.emailValid then mid + [EmailInvalid] else mid
    ensures after == ErrorsAfter(f, 3)
  {
    TestStep(f, 1, before, mid);
    TestStep(f, 2, mid, after);
  }

  lemma MessageStep(d: Form, before: seq<string>, after: seq<string>)
    requires before == ErrorsAfter(FactsOf(d), 3)
    requires after == if Strip(Message(d)) == [] then before + [MessageRequired] else before
    ensures after == ErrorsAfter(FactsOf(d), 4)
  {
    StripEmptyIffBlank(Message(d));
    TestStep(FactsOf(d), 3, before, after);
  }

  lemma NameLengthStep(d: Form, before: seq<string>, after: seq<string>)
    requires before == ErrorsAfter(FactsOf(d), 4)
    requires after == if |Name(d)| > 200 then before + [NameTooLongText] else before
    ensures after == ErrorsAfter(FactsOf(d), 5)
  {
    TestStep(FactsOf(d), 4, before, after);
  }

  lemma SubjectLengthStep(d: Form, before: seq<string>, after: seq<string>)
    requires before == ErrorsAfter(FactsOf(d), 5)
    requires after == if |Subject(d)| > 500 then before + [SubjectTooLongText] else before
    ensures after == ErrorsAfter(FactsOf(d), 6)
  {
    TestStep(FactsOf(d), 5, before, after);
  }

  lemma MessageLengthStep(d: Form, before: seq<string>, after: seq<string>)
    requires before == ErrorsAfter(FactsOf(d), 6)
    requires after == if |Message(d)| > 10000 then before + [MessageTooLongText] else before
    ensures after == ErrorsAfter(FactsOf(d), 7)
  {
    TestStep(FactsOf(d), 6, before, after);
  }

  /** `validate_contact_form(data)` (contact_form.py, lines 106-140). */
  method ValidateContactForm(data: Form) returns (errors: seq<string>)
    ensures errors == ContactErrors(data)
  {
    errors := [];
    ghost var before := errors;
    if Strip(DictGet(data, "name", "")) == [] {
      errors := errors + [NameRequired];
    }
    NameStep(data, before, errors);
    before := errors;
    if Strip(DictGet(data, "email", "")) == [] {
      errors := errors + [EmailRequired];
    } else if !ValidateEmail(DictGet(data, "email", "")) {
      errors := errors + [EmailInvalid];
    }
    EmailStep(data, before, errors);
    before := errors;
    if Strip(DictGet(data, "message", "")) == [] {
      errors := errors + [MessageRequired];
    }
    MessageStep(data, before, errors);
    before := errors;
    if |DictGet(data, "name", "")| > 200 {
      errors := errors + [NameTooLongText];
    }
    NameLengthStep(data, before, errors);
    before := errors;
    if |DictGet(data, "subject", "")| > 500 {
      errors := errors + [SubjectTooLongText];
    }
    SubjectLengthStep(data, before, errors);
    before := errors;
    if |DictGet(data, "message", "")| > 10000 {
      errors := errors + [MessageTooLongText];
    }
    MessageLengthStep(data, before, errors);
  }

  // ---------------------------------------------------------------------------
  // The rule table: which messages are reported, and in what order
  // ---------------------------------------------------------------------------

  /** Every rule passes: the form validate_contact_form accepts. */
  predicate Acceptable(d: Form) {
    && !Blank(Name(d)) && !Blank(Email(d)) && ValidateEmail(Email(d)) && !Blank(Message(d))
    && |Name(d)| <= MaxName && |Subject(d)| <= MaxSubject && |Message(d)| <= MaxMessage
  }

  /** The problems of ps whose rules fail, in the order of ps. */
  function Failing(f: Facts, ps: seq<Problem>): (r: seq<Problem>)
    ensures |r| <= |ps|
    decreases |ps|
  {
    if ps == [] then [] else Head(f, ps[0]) + Failing(f, ps[1..])
  }

  /** The one-problem list of p when its rule fails, else the empty list. */
  function Head(f: Facts, p: Problem): seq<Problem> {
    if Fails(f, p) then [p] else []
  }

  lemma {:induction false} FailingConcat(f: Facts, a: seq<Problem>, b: seq<Problem>)
    ensures Failing(f, a + b) == Failing(f, a) + Failing(f, b)
    decreases |a|
  {
    if a == [] {
      assert a + b == b;
    } else {
      assert (a + b)[0] == a[0] && (a + b)[1..] == a[1..] + b;
      FailingConcat(f, a[1..], b);
      var h := Head(f, a[0]);
      assert h + (Failing(f, a[1..]) + Failing(f, b)) == (h + Failing(f, a[1..])) + Failing(f, b);
    }
  }

  /** The tests one after another report the failing rules of the fixed order, filtered in that order. */
  lemma {:induction false} ProblemsAfterIsFailing(f: Facts, k: nat)
    requires k <= |Order|
    ensures ProblemsAfter(f, k) == Failing(f, Order[..k])
    decreases k
  {
    if k > 0 {
      ProblemsAfterIsFailing(f, k - 1);
      assert Order[..k] == Order[..k - 1] + [Order[k - 1]];
      FailingConcat(f, Order[..k - 1], [Order[k - 1]]);
      assert Failing(f, [Order[k - 1]]) == Head(f, Order[k - 1]) + Failing(f, []);
    }
  }

  /** The problems validate_contact_form finds are the failing rules, in the fixed order. */
  lemma ContactProblemsAreFailing(d: Form)
    ensures ContactProblems(d) == Failing(FactsOf(d), Order)
  {
    ProblemsAfterIsFailing(FactsOf(d), |Order|);
    assert Order[..|Order|] == Order;
  }

  /** Each position of the fixed order holds the problem of that rank. */
  lemma RankOf(i: nat)
    requires i < |Order|
    ensures Rank(Order[i]) == i
  {
  }

  /** A problem is among the first k found exactly when it comes before position k and its rule fails. */
  lemma {:induction false} InProblemsAfter(f: Facts, k: nat, p: Problem)
    requires k <= |Order|
    ensures p in ProblemsAfter(f, k) <==> Rank(p) < k && Fails(f, p)
    decreases k
  {
    if k > 0 {
      InProblemsAfter(f, k - 1, p);
      RankOf(k - 1);
    }
  }

  /** Every problem is found once its rule fails, and only then. */
  lemma ProblemReportedIff(d: Form, p: Problem)
    ensures p in ContactProblems(d) <==> Fails(FactsOf(d), p)
  {
    InProblemsAfter(FactsOf(d), |Order|, p);
  }

  /** A message is among the errors exactly when its problem's rule fails. */
  lemma ErrorReportedIff(d: Form, p: Problem)
    ensures Text(p) in ContactErrors(d) <==> Fails(FactsOf(d), p)
  {
    var ps := ContactProblems(d);
    ProblemReportedIff(d, p);
    if Text(p) in ContactErrors(d) {
      var i :| 0 <= i < |ps| && Texts(ps)[i] == Text(p);
      TextInjective(ps[i], p);
    }
    if p in ps {
      var i :| 0 <= i < |ps| && ps[i] == p;
      assert Texts(ps)[i] == Text(p);
    }
  }

  /** Problems listed in strictly increasing rank. */
  predicate Increasing(ps: seq<Problem>) {
    forall i, j :: 0 <= i < j < |ps| ==> Rank(ps[i]) < Rank(ps[j])
  }

  /** Appending a problem ranked above every listed one keeps the list increasing. */
  lemma IncreasingSnoc(ps: seq<Problem>, p: Problem)
    requires Increasing(ps) && forall i :: 0 <= i < |ps| ==> Rank(ps[i]) < Rank(p)
    ensures Increasing(ps + [p])
  {
    var q := ps + [p];
    forall i, j | 0 <= i < j < |q| ensures Rank(q[i]) < Rank(q[j]) {
      assert q[i] == ps[i];
      if j < |ps| { assert q[j] == ps[j]; }
    }
  }

  /** Every problem among the first k found has a rank below k. */
  lemma RanksBelow(f: Facts, k: nat)
    requires k <= |Order|
    ensures forall i :: 0 <= i < |ProblemsAfter(f, k)| ==> Rank(ProblemsAfter(f, k)[i]) < k
  {
    var ps := ProblemsAfter(f, k);
    forall i | 0 <= i < |ps| ensures Rank(ps[i]) < k {
      InProblemsAfter(f, k, ps[i]);
    }
  }

  lemma {:induction false} ProblemsAfterIncreasing(f: Facts, k: nat)
    requires k <= |Order|
    ensures Increasing(ProblemsAfter(f, k))
    decreases k
  {
    if k > 0 {
      ProblemsAfterIncreasing(f, k - 1);
      var ps := ProblemsAfter(f, k - 1);
      if Fails(f, Order[k - 1]) {
        RanksBelow(f, k - 1);
        RankOf(k - 1);
        IncreasingSnoc(ps, Order[k - 1]);
      } else {
        assert ps + [] == ps;
      }
    }
  }

  /** The errors come in the order the rules are tested, and none is reported twice. */
  lemma ErrorsInFixedOrder(d: Form)
    ensures Increasing(ContactProblems(d))
    ensures forall i, j :: 0 <= i < j < |ContactErrors(d)| ==> ContactErrors(d)[i] != ContactErrors(d)[j]
  {
    ProblemsAfterIncreasing(FactsOf(d), |Order|);
    var ps := ContactProblems(d);
    forall i, j | 0 <= i < j < |ps| ensures Texts(ps)[i] != Texts(ps)[j] {
      TextInjective(ps[i], ps[j]);
    }
  }

  /** An empty list of problems: none of the first k tests failed. */
  lemma {:induction false} NoProblemsNoFails(f: Facts, k: nat, j: nat)
    requires j < k <= |Order| && ProblemsAfter(f, k) == []
    ensures !Fails(f, Order[j])
    decreases k
  {
    if j < k - 1 {
      NoProblemsNoFails(f, k - 1, j);
    }
  }

  /** The validator returns no errors exactly for the forms where every rule passes. */
  lemma NoErrorsIffAcceptable(d: Form)
    ensures ContactErrors(d) == [] <==> Acceptable(d)
  {
    var f := FactsOf(d);
    var ps := ContactProblems(d);
    assert |Texts(ps)| == |ps|;
    if ps == [] {
      forall j | 0 <= j < |Order| ensures !Fails(f, Order[j]) {
        NoProblemsNoFails(f, |Order|, j);
      }
      assert !Fails(f, Order[0]) && !Fails(f, Order[1]) && !Fails(f, Order[2]) && !Fails(f, Order[3]);
      assert !Fails(f, Order[4]) && !Fails(f, Order[5]) && !Fails(f, Order[6]);
    } else {
      ProblemReportedIff(d, ps[0]);
    }
  }

  /** A blank email is reported as missing and never as malformed; at most one email message appears. */
  lemma AtMostOneEmailError(d: Form)
    ensures !(Text(EmailMissing) in ContactErrors(d) && Text(EmailMalformed) in ContactErrors(d))
    ensures Blank(Email(d)) ==> Text(EmailMissing) in ContactErrors(d)
  {
    ErrorReportedIff(d, EmailMissing);
    ErrorReportedIff(d, EmailMalformed);
  }

  /** The caps test the raw value, so a name of 201 spaces is both missing and too long. */
  lemma BlankLongNameBothErrors(d: Form)
    requires Blank(Name(d)) && |Name(d)| > MaxName
    ensures Text(NameMissing) in ContactErrors(d) && Text(NameTooLong) in ContactErrors(d)
  {
    ErrorReportedIff(d, NameMissing);
    ErrorReportedIff(d, NameTooLong);
  }

  /** An empty form lacks its name, email and message, in that order. */
  lemma EmptyFormErrors()
    ensures ContactErrors(map[]) == [NameRequired, EmailRequired, MessageRequired]
  {
    var d: Form := map[];
    assert Name(d) == [] && Email(d) == [] && Subject(d) == [] && Message(d) == [];
    var e := [NameRequired, EmailRequired, MessageRequired];
    NameStep(d, [], [NameRequired]);
    EmailStep(d, [NameRequired], [NameRequired, EmailRequired]);
    MessageStep(d, [NameRequired, EmailRequired], e);
    NameLengthStep(d, e, e);
    SubjectLengthStep(d, e, e);
    MessageLengthStep(d, e, e);
  }

  // ---------------------------------------------------------------------------
  // The contact record (lambda_handler, lines 366-375)
  // ---------------------------------------------------------------------------

  datatype ContactRecord = ContactRecord(
    contactId: string,
    name: string,
    email: string,
    subject: string,
    message: string,
    timestamp: string,
    status: string)

  const IdPrefix := "CONTACT-"
  const DefaultSubject := "General Inquiry"
  const NewStatus := "new"

  /**
    The record built from the form d, with uuidText the text of a fresh uuid
    and isoNow the ISO form of the current UTC time.
   */
  function RecordFor(d: Form, uuidText: string, isoNow: string): ContactRecord {
    ContactRecord(
      IdPrefix + Prefix(uuidText, 8),
      Escape(Prefix(Strip(Name(d)), MaxName)),
      AsciiLower(Strip(Email(d))),
      Escape(Prefix(Strip(DictGet(d, "subject", DefaultSubject)), MaxSubject)),
      Escape(Prefix(Strip(Message(d)), MaxMessage)),
      isoNow + "Z",
      NewStatus)
  }

  /** The record of lines 367-375, each text field passed through `sanitize_input` with its cap. */
  method BuildContact(d: Form, uuidText: string, isoNow: string) returns (c: ContactRecord)
    ensures c == RecordFor(d, uuidText, isoNow)
  {
    var name := SanitizeInput(Strip(DictGet(d, "name", "")), 200);
    var subject := SanitizeInput(Strip(DictGet(d, "subject", "General Inquiry")), 500);
    var message := SanitizeInput(Strip(DictGet(d, "message", "")), 10000);
    c := ContactRecord(
      "CONTACT-" + Prefix(uuidText, 8),
      name,
      AsciiLower(Strip(DictGet(d, "email", ""))),
      subject,
      message,
      isoNow + "Z",
      "new");
  }

  /** The id is "CONTACT-" and the first eight code points of the uuid text; the status is "new"; the timestamp ends in 'Z'. */
  lemma RecordShape(d: Form, uuidText: string, isoNow: string)
    requires |uuidText| >= 8
    ensures var c := RecordFor(d, uuidText, isoNow);
      && |c.contactId| == 16 && c.contactId[..8] == "CONTACT-" && c.contactId[8..] == uuidText[..8]
      && c.status == "new"
      && |c.timestamp| == |isoNow| + 1 && c.timestamp[..|isoNow|] == isoNow && c.timestamp[|isoNow|] == 'Z'
  {
  }

  /** Each sanitized field is safe for HTML and decodes to the stripped, truncated value. */
  lemma RecordFieldsEscaped(d: Form, uuidText: string, isoNow: string)
    ensures var c := RecordFor(d, uuidText, isoNow);
      && Escaped(c.name) && Unescape(c.name) == Prefix(Strip(Name(d)), MaxName)
      && Escaped(c.subject) && Unescape(c.subject) == Prefix(Strip(DictGet(d, "subject", DefaultSubject)), MaxSubject)
      && Escaped(c.message) && Unescape(c.message) == Prefix(Strip(Message(d)), MaxMessage)
  {
    EscapeIsEscaped(Prefix(Strip(Name(d)), MaxName));
    UnescapeEscape(Prefix(Strip(Name(d)), MaxName));
    EscapeIsEscaped(Prefix(Strip(DictGet(d, "subject", DefaultSubject)), MaxSubject));
    UnescapeEscape(Prefix(Strip(DictGet(d, "subject", DefaultSubject)), MaxSubject));
    EscapeIsEscaped(Prefix(Strip(Message(d)), MaxMessage));
    UnescapeEscape(Prefix(Strip(Message(d)), MaxMessage));
  }

  /** The default subject has no surrounding space. */
  lemma DefaultSubjectTrimmed()
    ensures Strip(DefaultSubject) == DefaultSubject
  {
    StripTrimmed(DefaultSubject);
  }

  /** The default subject holds nothing to escape. */
  lemma DefaultSubjectPlain()
    ensures Escape(DefaultSubject) == DefaultSubject
  {
    EscapePlain(DefaultSubject);
  }

  /** The default subject goes through `strip`, the cap and `sanitize_input` unchanged. */
  lemma DefaultSubjectKept()
    ensures Escape(Prefix(Strip(DefaultSubject), MaxSubject)) == DefaultSubject
    ensures Unescape(Escape(Prefix(Strip(DefaultSubject), MaxSubject))) == DefaultSubject
  {
    DefaultSubjectTrimmed();
    assert Prefix(DefaultSubject, MaxSubject) == DefaultSubject;
    DefaultSubjectPlain();
    UnescapeEscape(DefaultSubject);
  }

  /** "General Inquiry" is used only when the key is missing: a present but blank subject stays empty. */
  lemma SubjectDefault(d: Form, uuidText: string, isoNow: string)
    ensures "subject" !in d ==> RecordFor(d, uuidText, isoNow).subject == DefaultSubject
    ensures "subject" in d && Strip(d["subject"]) == [] ==> RecordFor(d, uuidText, isoNow).subject == ""
  {
    if "subject" !in d {
      DefaultSubjectKept();
    }
  }

  /** An address the validator accepts loses at most the one newline `$` let through when it is stripped. */
  lemma ValidatedEmailStrip(email: string)
    requires ValidateEmail(email)
    ensures Strip(email) == Core(email)
  {
    AcceptedShape(email);
    var c := Core(email);
    var at, dot :| SplitsAt(c, at, dot);
    assert c[..at][0] == c[0];
    assert c[dot + 1..][|c| - dot - 2] == c[|c| - 1];
    StripTrimmed(c);
  }

  /** A stripped field no longer than the cap is left whole by the truncation and decodes back to itself. */
  lemma CappedField(s: string, cap: nat)
    requires |s| <= cap
    ensures Unescape(Escape(Prefix(Strip(s), cap))) == Strip(s)
  {
    UnescapeEscape(Strip(s));
  }

  /** A subject within its cap, or the default one, comes back whole from the record. */
  lemma SubjectKept(d: Form)
    requires |Subject(d)| <= MaxSubject
    ensures var s := Strip(DictGet(d, "subject", DefaultSubject));
      Unescape(Escape(Prefix(s, MaxSubject))) == s
  {
    if "subject" in d {
      assert DictGet(d, "subject", DefaultSubject) == Subject(d);
      CappedField(Subject(d), MaxSubject);
    } else {
      DefaultSubjectKept();
      DefaultSubjectTrimmed();
    }
  }

  /** For a form that passed validation no cap truncates: each field decodes to the stripped input, and the email is the lower-cased address. */
  lemma ValidatedRecord(d: Form, uuidText: string, isoNow: string)
    requires ContactErrors(d) == []
    ensures var c := RecordFor(d, uuidText, isoNow);
      && Unescape(c.name) == Strip(Name(d))
      && Unescape(c.subject) == Strip(DictGet(d, "subject", DefaultSubject))
      && Unescape(c.message) == Strip(Message(d))
      && c.email == AsciiLower(Core(Email(d)))
  {
    NoErrorsIffAcceptable(d);
    CappedField(Name(d), MaxName);
    SubjectKept(d);
    CappedField(Message(d), MaxMessage);
    ValidatedEmailStrip(Email(d));
  }

  /** The record as the dictionary the templates and the table receive. */
  function AsDict(c: ContactRecord): (m: Form)
    ensures m.Keys == {"contactId", "name", "email", "subject", "message", "timestamp", "status"}
  {
    map["contactId" := c.contactId, "name" := c.name, "email" := c.email, "subject" := c.subject,
        "message" := c.message, "timestamp" := c.timestamp, "status" := c.status]
  }
}
