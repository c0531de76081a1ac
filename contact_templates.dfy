/**
  The two HTML bodies the contact handler sends (contact_form.py, lines
  192-299): the staff notification and the customer auto-reply.

  Each is an f-string: static markup with the contact's fields put in at
  fixed places. The markup itself is not modelled; each run of it between
  two fields is an opaque constant, and a template is the concatenation of
  those constants and the fields, `.get` defaults included. The few static
  pieces that a property is about (the `mailto:` link and its `?subject=Re: `
  query) are written out.
 */
module ContactTemplates {
  import opened PyText

  type Contact = map<string, string>

  // The static markup of the staff notification, between its fields.
  const StaffHead: string
  const StaffAfterDate: string
  const StaffAfterId: string
  const StaffBeforeEmailLink: string
  const StaffAfterEmailHref: string
  const StaffAfterEmail: string
  const StaffAfterSubject: string
  const StaffBeforeReplyLink: string
  const StaffAfterReplyHref: string
  const StaffTail: string

  const MailTo := "mailto:"
  const ReQuery := "?subject=Re: "

  /** `.get` defaults of the staff notification. */
  const NoSubject := "No subject"
  const ReplyDefaultSubject := "Your inquiry to Sticker & Magnet Lab"

  /** The `href` of a mail link: `mailto:` and the address, then `?subject=Re: ` and the subject. */
  function ReplyLink(email: string, subject: string): string {
    MailTo + email + ReQuery + subject
  }

  /** The header box: date and contact id. */
  function StaffInfo(contact: Contact): string {
    Concat([StaffHead, DictGet(contact, "timestamp", ""),
            StaffAfterDate, DictGet(contact, "contactId", ""), StaffAfterId])
  }

  /** The contact table: name, the email as a `mailto:` link, and the subject. */
  function StaffTable(contact: Contact): string {
    var email := DictGet(contact, "email", "");
    Concat([DictGet(contact, "name", ""), StaffBeforeEmailLink, MailTo + email,
            StaffAfterEmailHref, email, StaffAfterEmail,
            DictGet(contact, "subject", NoSubject), StaffAfterSubject])
  }

  /** The message and the reply box. */
  function StaffMessage(contact: Contact): string {
    var email := DictGet(contact, "email", "");
    Concat([DictGet(contact, "message", ""), StaffBeforeReplyLink,
            ReplyLink(email, DictGet(contact, "subject", ReplyDefaultSubject)),
            StaffAfterReplyHref, email, StaffTail])
  }

  /** `get_staff_notification_html(contact)` (contact_form.py, lines 192-246). */
  function StaffNotificationHtml(contact: Contact): string {
    Concat([StaffInfo(contact), StaffTable(contact), StaffMessage(contact)])
  }

  // The static markup of the auto-reply, between its fields.
  const ReplyHead: string
  const ReplyAfterName: string
  const ReplyAfterSubject: string
  const ReplyTail: string

  /** `.get` defaults of the auto-reply. */
  const CustomerName := "Customer"
  const GeneralInquiry := "General Inquiry"

  /** The pieces of the auto-reply, in order. */
  function ReplyParts(contact: Contact): (parts: seq<string>)
    ensures |parts| == 7
  {
    [ReplyHead, DictGet(contact, "name", CustomerName),
     ReplyAfterName, DictGet(contact, "subject", GeneralInquiry),
     ReplyAfterSubject, DictGet(contact, "message", ""),
     ReplyTail]
  }

  /** `get_auto_reply_html(contact)` (contact_form.py, lines 249-299). */
  function AutoReplyHtml(contact: Contact): string {
    Concat(ReplyParts(contact))
  }

  // ---------------------------------------------------------------------------
  // What the templates contain
  // ---------------------------------------------------------------------------

  /** What occurs in a fragment occurs in the concatenation. */
  lemma PartContains(parts: seq<string>, k: nat, t: string)
    requires k < |parts| && Contains(parts[k], t)
    ensures Contains(Concat(parts), t)
  {
    ConcatContains(parts, k);
    ContainsTrans(Concat(parts), parts[k], t);
  }

  /**
    The staff notification shows every field verbatim (subject defaulting to
    "No subject") and holds the reply link `mailto:<email>?subject=Re: <subject>`,
    whose subject defaults to "Your inquiry to Sticker & Magnet Lab".
   */
  lemma StaffNotificationShows(contact: Contact)
    ensures var html := StaffNotificationHtml(contact);
      && Contains(html, DictGet(contact, "timestamp", ""))
      && Contains(html, DictGet(contact, "contactId", ""))
      && Contains(html, DictGet(contact, "name", ""))
      && Contains(html, DictGet(contact, "email", ""))
      && Contains(html, DictGet(contact, "subject", NoSubject))
      && Contains(html, DictGet(contact, "message", ""))
      && Contains(html, ReplyLink(DictGet(contact, "email", ""), DictGet(contact, "subject", ReplyDefaultSubject)))
  {
    var info := [StaffHead, DictGet(contact, "timestamp", ""),
                 StaffAfterDate, DictGet(contact, "contactId", ""), StaffAfterId];
    ConcatContains(info, 1);
    ConcatContains(info, 3);
    var email := DictGet(contact, "email", "");
    var table := [DictGet(contact, "name", ""), StaffBeforeEmailLink, MailTo + email,
                  StaffAfterEmailHref, email, StaffAfterEmail,
                  DictGet(contact, "subject", NoSubject), StaffAfterSubject];
    ConcatContains(table, 0);
    ConcatContains(table, 4);
    ConcatContains(table, 6);
    var message := [DictGet(contact, "message", ""), StaffBeforeReplyLink,
                    ReplyLink(email, DictGet(contact, "subject", ReplyDefaultSubject)),
                    StaffAfterReplyHref, email, StaffTail];
    ConcatContains(message, 0);
    ConcatContains(message, 2);
    var sections := [StaffInfo(contact), StaffTable(contact), StaffMessage(contact)];
    PartContains(sections, 0, DictGet(contact, "timestamp", ""));
    PartContains(sections, 0, DictGet(contact, "contactId", ""));
    PartContains(sections, 1, DictGet(contact, "name", ""));
    PartContains(sections, 1, email);
    PartContains(sections, 1, DictGet(contact, "subject", NoSubject));
    PartContains(sections, 2, DictGet(contact, "message", ""));
    PartContains(sections, 2, ReplyLink(email, DictGet(contact, "subject", ReplyDefaultSubject)));
  }

  /** The auto-reply greets the name (default "Customer") and repeats the subject (default "General Inquiry") and the message. */
  lemma AutoReplyShows(contact: Contact)
    ensures var html := AutoReplyHtml(contact);
      && Contains(html, DictGet(contact, "name", CustomerName))
      && Contains(html, DictGet(contact, "subject", GeneralInquiry))
      && Contains(html, DictGet(contact, "message", ""))
  {
    var parts := ReplyParts(contact);
    ConcatContains(parts, 1);
    ConcatContains(parts, 3);
    ConcatContains(parts, 5);
  }
}
