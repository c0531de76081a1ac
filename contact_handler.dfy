/**
  `lambda_handler` for POST /api/contact (contact_form.py, lines 326-416),
  with `store_contact`, `send_email` and `build_cors_response`.

  The AWS collaborators are not modelled: each call is recorded as an
  `Effect` in the order it happens, and whether it succeeded is an injected
  boolean. The request body arrives already classified (a dictionary, text
  that is not JSON, or JSON that is not an object); the response body is kept
  as the dictionary that `json.dumps` would serialise. The configuration the
  module reads from the environment at import time is a `Config` value.
 */
module ContactHandler {
  import opened Wrappers
  import opened PyText
  import opened TagStrip
  import opened ContactForm
  import opened ContactTemplates

  // ---------------------------------------------------------------------------
  // Configuration (contact_form.py, lines 36-39)
  // ---------------------------------------------------------------------------

  type Env = map<string, string>

  datatype Config = Config(
    fromEmail: string,
    staffEmails: seq<string>,
    contactsTable: string,
    storeContacts: bool)

  const DefaultFrom := "orders@rrinconline.com"
  const DefaultStaff := "arturo@rrinconline.com,ramonecardonna@gmail.com"
  const DefaultTable := "sticker_magnet_lab_contacts"
  const DefaultStore := "true"

  /** "true" in any mix of letter case. */
  predicate TrueInAnyCase(v: string) {
    && |v| == 4
    && (v[0] == 't' || v[0] == 'T') && (v[1] == 'r' || v[1] == 'R')
    && (v[2] == 'u' || v[2] == 'U') && (v[3] == 'e' || v[3] == 'E')
  }

  /** `.lower() == 'true'` holds exactly of "true" in any letter case. */
  lemma StoreFlag(v: string)
    ensures AsciiLower(v) == DefaultStore <==> TrueInAnyCase(v)
  {
    var l := AsciiLower(v);
    if l == DefaultStore {
      assert l[0] == 't' && l[1] == 'r' && l[2] == 'u' && l[3] == 'e';
    }
    if TrueInAnyCase(v) {
      assert l == [LowerChar(v[0]), LowerChar(v[1]), LowerChar(v[2]), LowerChar(v[3])];
    }
  }

  /** The configuration read from the environment env, with the defaults of lines 36-39. */
  function LoadConfig(env: Env): (cfg: Config)
    ensures Join(cfg.staffEmails, ",") == DictGet(env, "STAFF_EMAILS", DefaultStaff)
    ensures forall k :: 0 <= k < |cfg.staffEmails| ==> ',' !in cfg.staffEmails[k]
    ensures cfg.storeContacts <==> TrueInAnyCase(DictGet(env, "STORE_CONTACTS", DefaultStore))
  {
    var staff := DictGet(env, "STAFF_EMAILS", DefaultStaff);
    SplitJoin(staff, ',');
    var store := DictGet(env, "STORE_CONTACTS", DefaultStore);
    StoreFlag(store);
    Config(
      DictGet(env, "FROM_EMAIL", DefaultFrom),
      Split(staff, ','),
      DictGet(env, "CONTACTS_TABLE", DefaultTable),
      AsciiLower(store) == DefaultStore)
  }

  /** With nothing set, mail comes from the orders address, goes to the default staff list, and contacts are stored. */
  lemma DefaultConfig()
    ensures var cfg := LoadConfig(map[]);
      && cfg.fromEmail == DefaultFrom
      && Join(cfg.staffEmails, ",") == DefaultStaff
      && cfg.contactsTable == DefaultTable
      && cfg.storeContacts
  {
    assert TrueInAnyCase(DefaultStore);
  }

  // ---------------------------------------------------------------------------
  // Responses (contact_form.py, lines 42-62)
  // ---------------------------------------------------------------------------

  /** A value of a response body. */
  datatype Value = Bool(b: bool) | Str(s: string) | Strs(ss: seq<string>)

  type Body = map<string, Value>

  datatype Response = Response(statusCode: int, headers: map<string, string>, body: Body)

  const AllowedHeaders := "Content-Type,X-Amz-Date,Authorization,X-Api-Key,X-Amz-Security-Token"
  const AllowedMethods := "POST,OPTIONS"

  const CorsHeaders: map<string, string> := map[
    "Content-Type" := "application/json",
    "Access-Control-Allow-Origin" := "*",
    "Access-Control-Allow-Headers" := AllowedHeaders,
    "Access-Control-Allow-Methods" := AllowedMethods]

  /** `build_cors_response(status_code, body)`: the status, the body, and the four CORS headers. */
  function BuildCorsResponse(statusCode: int, body: Body): (r: Response)
    ensures r.statusCode == statusCode && r.body == body
    ensures r.headers.Keys == {"Content-Type", "Access-Control-Allow-Origin", "Access-Control-Allow-Headers", "Access-Control-Allow-Methods"}
    ensures r.headers["Content-Type"] == "application/json"
    ensures r.headers["Access-Control-Allow-Origin"] == "*"
    ensures r.headers["Access-Control-Allow-Methods"] == AllowedMethods
  {
    Response(statusCode, CorsHeaders, body)
  }

  // ---------------------------------------------------------------------------
  // Effects: store_contact and send_email
  // ---------------------------------------------------------------------------

  /** A call into AWS: a `put_item` on a table, or an SES `send_email`. */
  datatype Effect =
    | Put(table: string, item: Form)
    | Send(source: string, to: seq<string>, subject: string, html: string, text: string)

  /**
    `store_contact(contact)` (contact_form.py, lines 302-323): with storage
    switched off it reports success and touches no table; otherwise it puts
    the record and reports whether the put succeeded (putOk).
   */
  method StoreContact(cfg: Config, contact: ContactRecord, putOk: bool) returns (stored: bool, effects: seq<Effect>)
    ensures !cfg.storeContacts ==> stored && effects == []
    ensures cfg.storeContacts ==> stored == putOk && effects == [Put(cfg.contactsTable, AsDict(contact))]
  {
    if !cfg.storeContacts {
      return true, [];
    }
    effects := [Put(cfg.contactsTable, AsDict(contact))];
    stored := putOk;
  }

  /** The body text SES receives: the given text, or the fallback derived from the HTML when it is empty. */
  function MailText(html: string, text: string): (t: string)
    ensures text != [] ==> t == text
    ensures text == [] ==> t == TextFallback(html) && |t| <= |html|
  {
    if text == [] then
      TextFallbackShorter(html);
      TextFallback(html)
    else text
  }

  /**
    `send_email(to_emails, subject, html_body, text_body)` (contact_form.py,
    lines 143-189): the plain text is derived from the HTML only when none is
    given; the message is sent from the configured address; sesOk is whether
    SES accepted it.
   */
  method SendEmail(cfg: Config, toEmails: seq<string>, subject: string, htmlBody: string, textBody: string, sesOk: bool)
    returns (sent: bool, effect: Effect)
    ensures sent == sesOk
    ensures effect == Send(cfg.fromEmail, toEmails, subject, htmlBody, MailText(htmlBody, textBody))
  {
    var text := textBody;
    if text == [] {
      text := Replace(htmlBody, BreakTag, NewLine);
      text := Replace(text, ParagraphEnd, NewLine);
      text := StripTags(text);
    }
    effect := Send(cfg.fromEmail, toEmails, subject, htmlBody, text);
    sent := sesOk;
  }

  // ---------------------------------------------------------------------------
  // The handler
  // ---------------------------------------------------------------------------

  /** The request body: a dictionary (given as one, or JSON text decoding to an object), text that is not JSON, or JSON that is not an object. */
  datatype RequestBody = Dict(data: Form) | InvalidJson | NotObject

  /** The API Gateway event: its optional `httpMethod` and its body. A missing body is the empty text, which is not JSON. */
  datatype Event = Event(httpMethod: Option<string>, body: RequestBody)

  const Options := "OPTIONS"
  const PreflightText := "CORS preflight successful"
  const InvalidJsonText := "Invalid JSON in request body"
  const ValidationFailedText := "Validation failed"
  const ReceivedText := "Your message has been received. We will get back to you soon!"
  const InternalErrorText := "Internal server error"
  const StaffSubjectPrefix := "Contact Form: "
  const ReplySubject := "Thank you for contacting Sticker & Magnet Lab"

  /** The subject of the staff notification: a fixed prefix and the first 50 code points of the record's subject, all of it when shorter. */
  function StaffSubject(c: ContactRecord): (s: string)
    ensures |s| <= |StaffSubjectPrefix| + 50
    ensures StaffSubjectPrefix <= s && s[|StaffSubjectPrefix|..] <= c.subject
    ensures |c.subject| <= 50 ==> s == StaffSubjectPrefix + c.subject
    ensures |c.subject| > 50 ==> s == StaffSubjectPrefix + c.subject[..50]
  {
    var s := StaffSubjectPrefix + Prefix(c.subject, 50);
    assert s[|StaffSubjectPrefix|..] == Prefix(c.subject, 50);
    s
  }

  function Preflight(): Response {
    BuildCorsResponse(200, map["message" := Str(PreflightText)])
  }

  function Failure(statusCode: int, error: string): Response {
    BuildCorsResponse(statusCode, map["success" := Bool(false), "error" := Str(error)])
  }

  function Rejected(errors: seq<string>): Response {
    BuildCorsResponse(400, map["success" := Bool(false), "error" := Str(ValidationFailedText), "details" := Strs(errors)])
  }

  function Accepted(contactId: string): Response {
    BuildCorsResponse(200, map["success" := Bool(true), "message" := Str(ReceivedText), "contactId" := Str(contactId)])
  }

  /** The calls an accepted submission makes, in order: the optional put, the staff notification, the auto-reply. */
  function AcceptedEffects(cfg: Config, c: ContactRecord): seq<Effect> {
    var staffHtml := StaffNotificationHtml(AsDict(c));
    var replyHtml := AutoReplyHtml(AsDict(c));
    (if cfg.storeContacts then [Put(cfg.contactsTable, AsDict(c))] else [])
      + [Send(cfg.fromEmail, cfg.staffEmails, StaffSubject(c), staffHtml, TextFallback(staffHtml)),
         Send(cfg.fromEmail, [c.email], ReplySubject, replyHtml, TextFallback(replyHtml))]
  }

  /**
    `lambda_handler(event, context)`. uuidText and isoNow stand for
    `str(uuid.uuid4())` and `datetime.utcnow().isoformat()`; putOk, staffOk
    and replyOk are the outcomes of the table put and the two sends.

    A preflight, a body that is not JSON, a body that is not an object, and a
    form that fails validation are answered without any call into AWS. An
    accepted form is stored (when storage is on), then the staff are
    notified, then the sender gets the auto-reply; the answer is 200 with
    the new contact id whatever those calls returned.
   */
  method LambdaHandler(cfg: Config, event: Event, uuidText: string, isoNow: string,
                       putOk: bool, staffOk: bool, replyOk: bool)
    returns (resp: Response, effects: seq<Effect>)
    ensures resp.headers == CorsHeaders
    ensures event.httpMethod == Some(Options) ==> resp == Preflight() && effects == []
    ensures event.httpMethod != Some(Options) && event.body.InvalidJson? ==>
      resp == Failure(400, InvalidJsonText) && effects == []
    ensures event.httpMethod != Some(Options) && event.body.NotObject? ==>
      resp == Failure(500, InternalErrorText) && effects == []
    ensures event.httpMethod != Some(Options) && event.body.Dict? && ContactErrors(event.body.data) != [] ==>
      resp == Rejected(ContactErrors(event.body.data)) && effects == []
    ensures event.httpMethod != Some(Options) && event.body.Dict? && ContactErrors(event.body.data) == [] ==>
      var c := RecordFor(event.body.data, uuidText, isoNow);
      resp == Accepted(c.contactId) && effects == AcceptedEffects(cfg, c)
  {
    effects := [];
    if event.httpMethod == Some(Options) {
      return Preflight(), effects;
    }
    if event.body.InvalidJson? {
      return Failure(400, InvalidJsonText), effects;
    }
    if event.body.NotObject? {
      // `.get` on a list or a number raises, and the catch-all answers 500.
      return Failure(500, InternalErrorText), effects;
    }
    var data := event.body.data;
    var errors := ValidateContactForm(data);
    if errors != [] {
      return Rejected(errors), effects;
    }
    resp, effects := Process(cfg, data, uuidText, isoNow, putOk, staffOk, replyOk);
  }

  /** The part of lines 365-398 that runs once the form is valid: build, store, notify, reply, answer. */
  method Process(cfg: Config, data: Form, uuidText: string, isoNow: string, putOk: bool, staffOk: bool, replyOk: bool)
    returns (resp: Response, effects: seq<Effect>)
    ensures var c := RecordFor(data, uuidText, isoNow);
      resp == Accepted(c.contactId) && effects == AcceptedEffects(cfg, c)
  {
    var contact := BuildContact(data, uuidText, isoNow);
    var stored, put := StoreContact(cfg, contact, putOk);
    var staffHtml := StaffNotificationHtml(AsDict(contact));
    var staffSent, staffMail := SendEmail(cfg, cfg.staffEmails, StaffSubject(contact), staffHtml, [], staffOk);
    var replyHtml := AutoReplyHtml(AsDict(contact));
    var replySent, replyMail := SendEmail(cfg, [contact.email], ReplySubject, replyHtml, [], replyOk);
    effects := put + [staffMail, replyMail];
    resp := Accepted(contact.contactId);
  }

  // ---------------------------------------------------------------------------
  // Properties of an accepted submission
  // ---------------------------------------------------------------------------

  /** Nothing is put when storage is off; otherwise the put comes first and holds the record. */
  lemma AcceptedEffectsOrder(cfg: Config, c: ContactRecord)
    ensures var e := AcceptedEffects(cfg, c);
      && |e| == (if cfg.storeContacts then 3 else 2)
      && (cfg.storeContacts ==> e[0] == Put(cfg.contactsTable, AsDict(c)))
      && e[|e| - 2].Send? && e[|e| - 2].to == cfg.staffEmails && e[|e| - 2].subject == StaffSubject(c)
      && e[|e| - 1].Send? && e[|e| - 1].to == [c.email] && e[|e| - 1].subject == ReplySubject
      && (forall k :: 0 <= k < |e| && e[k].Send? ==> e[k].source == cfg.fromEmail && |e[k].text| <= |e[k].html|)
  {
    var staffHtml := StaffNotificationHtml(AsDict(c));
    var replyHtml := AutoReplyHtml(AsDict(c));
    TextFallbackShorter(staffHtml);
    TextFallbackShorter(replyHtml);
  }

  /** The staff notification of an accepted submission shows the record's fields and links a reply to its address with its subject. */
  lemma StaffMailShowsRecord(c: ContactRecord)
    ensures var html := StaffNotificationHtml(AsDict(c));
      && Contains(html, c.contactId) && Contains(html, c.timestamp)
      && Contains(html, c.name) && Contains(html, c.email)
      && Contains(html, c.subject) && Contains(html, c.message)
      && Contains(html, ReplyLink(c.email, c.subject))
  {
    StaffNotificationShows(AsDict(c));
  }

  /** The auto-reply of an accepted submission greets the sender by the record's name and repeats the subject and the message. */
  lemma AutoReplyShowsRecord(c: ContactRecord)
    ensures var html := AutoReplyHtml(AsDict(c));
      && Contains(html, c.name) && Contains(html, c.subject) && Contains(html, c.message)
  {
    AutoReplyShows(AsDict(c));
  }
}
