# Contact submissions and e-mail templates of Sticker & Magnet Lab, in Dafny

This project models the contact-form back end of the Sticker & Magnet Lab shop and proves properties of the model. The back end handles `POST /api/contact` on AWS Lambda:

- It validates the submitted form: required fields, the e-mail pattern and length caps.
- It builds a sanitised contact record.
- It optionally stores the record in DynamoDB.
- It sends an HTML notification to staff and an HTML auto-reply to the sender through SES.
- It answers with a CORS-enabled JSON response.

The project also models the data shaping in the shared e-mail templates: field defaults, the shipping-address block, product labels, numbered item rows, and the two contact e-mails.

Modules, one concern each:

| module | file | models |
|---|---|---|
| `Wrappers` | wrappers.dfy | `Option`, standing in for "key present or absent" |
| `PyText` | py_text.dfy | the Python `str` operations the code uses: `s[:n]`, `strip`, `lower`, `replace`, `title`, `split`, `join`, `in`, `dict.get` |
| `EmailFormat` | email_format.dfy | `validate_email` and the language of its regular expression |
| `Sanitizer` | sanitizer.dfy | `sanitize_input` |
| `TagStrip` | tag_strip.dfy | the plain-text fallback of `send_email`: the `<br>`/`</p>` replacements and a lazy `<[^<]+?>` removal |
| `ContactForm` | contact_form.dfy | `validate_contact_form` and the contact record |
| `ContactTemplates` | contact_templates.dfy | the handler's own two templates |
| `ContactHandler` | contact_handler.dfy | configuration, `build_cors_response`, `store_contact`, `send_email`, `lambda_handler` |
| `EmailTemplates` | email_templates.dfy | the shared templates of backend/utils/email_templates.py |

How the model is built:

- **Imperative code becomes methods.** Where the source works step by step, the model is a method whose contract ties it to a specification function: `validate_contact_form` appends errors, `sanitize_input` reassigns its text, `lambda_handler` performs its calls in order, and the template loops grow `items_html`. The properties are then proved about those functions.
- **AWS calls become recorded effects.** Every call into AWS is recorded as an `Effect`, in order. Whether the call succeeded is a boolean parameter.
- **Templates are concatenations.** An HTML template is the concatenation of opaque constants (its static markup) and its fields. Field containment is stated with `Contains`, which is Python's `in`.

Behaviour worth knowing, all of it established by the proofs:

- Python's `$` also matches just before a final newline, so `validate_email("a@b.co\n")` is true (`EmailFormat.AcceptsTrailingNewline`). The validator is given the unstripped e-mail. The record stores the stripped, lower-cased one (`ContactForm.ValidatedRecord`).
- The field caps are applied before escaping, so a record field can be longer than its cap. A name of 200 `&` becomes 1000 code points. The caps bound the raw text, not the sanitised field (`Sanitizer.SanitizedLength`).
- A subject that is present but blank stays empty. "General Inquiry" is used only when the key is missing (`ContactForm.SubjectDefault`).

## Model

| member | source | states |
|---|---|---|
| EmailFormat.ValidateEmailIsMatch | backend/lambda_functions/contact_form.py:75-76 | the validator accepts exactly what `re.match` accepts: a match of the pattern, or a match followed by one final newline |
| EmailFormat.AddressShapeIsPattern | backend/lambda_functions/contact_form.py:75 | the scan to the first '@' and the last '.' after it accepts exactly the strings that split as local part, '@', domain, '.', two or more letters |
| EmailFormat.AcceptedShape | backend/lambda_functions/contact_form.py:75-76 | an accepted address has exactly one '@', a non-empty local part over `[a-zA-Z0-9._%+-]`, a non-empty domain over `[a-zA-Z0-9.-]`, and two or more letters after the last '.' |
| EmailFormat.CoreMatches | backend/lambda_functions/contact_form.py:75-76 | once the single newline `$` allows is dropped, an accepted address matches the pattern |
| EmailFormat.RejectsWithoutAt | backend/lambda_functions/contact_form.py:75-76 | a string with no '@' is rejected |
| EmailFormat.RejectsTwoAts | backend/lambda_functions/contact_form.py:75-76 | a string with two '@' is rejected |
| EmailFormat.RejectsNoDotAfterAt | backend/lambda_functions/contact_form.py:75-76 | a string with no '.' after its '@' is rejected |
| EmailFormat.RejectsOneLetterTld | backend/lambda_functions/contact_form.py:75-76 | a one-letter top-level domain is rejected, with or without a trailing newline |
| EmailFormat.AcceptsTrailingNewline | backend/lambda_functions/contact_form.py:75-76 | a matching address followed by one newline is accepted; followed by two it is not |
| Sanitizer.SanitizeInput | backend/lambda_functions/contact_form.py:79-103 | the output is the per-code-point escape of `text[:max_length]` (the empty string for empty input); it is HTML-safe and decodes back to `text[:max_length]` |
| Sanitizer.ReplaceChainIsEscape | backend/lambda_functions/contact_form.py:97-101 | the five `replace` calls in their order equal escaping each code point on its own |
| Sanitizer.UnescapeEscape | backend/lambda_functions/contact_form.py:93-101 | decoding the five entities gives back exactly the text that was escaped |
| Sanitizer.EscapeIsEscaped | backend/lambda_functions/contact_form.py:97-101 | escaped text has no `<`, `>`, `"` or `'`, and every `&` in it begins one of `&amp;` `&lt;` `&gt;` `&quot;` `&#x27;` |
| Sanitizer.EscapeConcat | backend/lambda_functions/contact_form.py:97-101 | escaping works piece by piece over concatenation |
| Sanitizer.EscapePlain | backend/lambda_functions/contact_form.py:97-101 | text with none of the five characters is returned unchanged |
| Sanitizer.EscapeTwice | backend/lambda_functions/contact_form.py:97-101 | escaping is not idempotent: `&amp;` becomes `&amp;amp;` |
| Sanitizer.SanitizedLength | backend/lambda_functions/contact_form.py:93-101 | the output is at least `min(len(text), n)` long, and can be longer than n |
| TagStrip.TagLengthIsShortestTag | backend/lambda_functions/contact_form.py:159 | at a '<' the scan removes through the first '>' at least two on with no '<' between, and is 0 exactly when no such tag starts there |
| TagStrip.StripTagsStep | backend/lambda_functions/contact_form.py:159 | at each position the removal drops exactly the shortest tag there or keeps one code point |
| TagStrip.StripTagsPlain | backend/lambda_functions/contact_form.py:159 | text without '<' is unchanged by the tag removal |
| TagStrip.StripTagsDropsTag | backend/lambda_functions/contact_form.py:159 | a tag `<name>` is removed whole |
| TagStrip.StripTagsKeepsOpen | backend/lambda_functions/contact_form.py:159 | a '<' that reaches another '<' before any '>' is kept |
| TagStrip.StripTagsSinglePass | backend/lambda_functions/contact_form.py:159 | the removal is one pass: a nested tag leaves the outer one behind, which a second pass would remove |
| TagStrip.TextFallbackShorter | backend/lambda_functions/contact_form.py:156-159 | the derived plain text is never longer than the HTML |
| TagStrip.TextFallbackPlain | backend/lambda_functions/contact_form.py:156-159 | HTML without '<' is its own plain text |
| TagStrip.TextFallbackLineBreaks | backend/lambda_functions/contact_form.py:156-159 | `<br>` and `</p>` become newlines before tags are stripped |
| ContactForm.ValidateContactForm | backend/lambda_functions/contact_form.py:106-140 | the appended errors are the specified error list of the form |
| ContactForm.ContactProblemsAreFailing | backend/lambda_functions/contact_form.py:116-140 | the tests one after another report exactly the failing rules, in the fixed order name, email, message, lengths |
| ContactForm.ErrorReportedIff | backend/lambda_functions/contact_form.py:119-138 | a message is among the errors if and only if its rule fails |
| ContactForm.ErrorsInFixedOrder | backend/lambda_functions/contact_form.py:116-140 | the errors come in increasing rule order and none appears twice |
| ContactForm.NoErrorsIffAcceptable | backend/lambda_functions/contact_form.py:116-140 | no errors if and only if stripped name, email and message are non-empty, the email matches, and raw lengths are at most 200, 500 and 10000 |
| ContactForm.AtMostOneEmailError | backend/lambda_functions/contact_form.py:122-125 | "Email is required" and "Invalid email format" never both appear, and a blank email gives the former |
| ContactForm.BlankLongNameBothErrors | backend/lambda_functions/contact_form.py:119-132 | a blank name over 200 code points gives both "Name is required" and the length error |
| ContactForm.EmptyFormErrors | backend/lambda_functions/contact_form.py:116-140 | the empty form gets exactly the three required-field errors, in order |
| ContactForm.StripEmptyIffBlank | backend/lambda_functions/contact_form.py:119 | `not s.strip()` holds exactly of whitespace-only text |
| ContactForm.ProblemOfText | backend/lambda_functions/contact_form.py:120-138 | each error message names its own problem |
| ContactForm.TextInjective | backend/lambda_functions/contact_form.py:120-138 | different problems have different messages |
| ContactForm.BuildContact | backend/lambda_functions/contact_form.py:366-375 | the record built is the specified record of the form, the uuid text and the clock text |
| ContactForm.RecordShape | backend/lambda_functions/contact_form.py:368-374 | the id is "CONTACT-" and the first 8 code points of the uuid text, the status is "new", and the timestamp is the clock text followed by 'Z' |
| ContactForm.RecordFieldsEscaped | backend/lambda_functions/contact_form.py:369-372 | name, subject and message are HTML-safe and decode to the stripped, capped input |
| ContactForm.SubjectDefault | backend/lambda_functions/contact_form.py:371 | "General Inquiry" is the subject only when the key is missing; a blank subject stays empty |
| ContactForm.DefaultSubjectKept | backend/lambda_functions/contact_form.py:371 | the default subject goes through strip, cap and escaping unchanged |
| ContactForm.ValidatedEmailStrip | backend/lambda_functions/contact_form.py:122-125 | stripping an accepted e-mail drops at most the one newline the pattern allowed |
| ContactForm.ValidatedRecord | backend/lambda_functions/contact_form.py:357-372 | after validation passes, no cap truncates anything: the fields decode to the stripped input, and the e-mail is the lower-cased matching address |
| ContactForm.AsDict | backend/lambda_functions/contact_form.py:367-375 | the record as a dictionary has exactly its seven keys |
| ContactTemplates.StaffNotificationShows | backend/lambda_functions/contact_form.py:192-246 | the staff notification shows timestamp, id, name, e-mail, subject (default "No subject") and message, and holds `mailto:<email>?subject=Re: <subject>` |
| ContactTemplates.AutoReplyShows | backend/lambda_functions/contact_form.py:249-299 | the auto-reply shows the name (default "Customer"), the subject (default "General Inquiry") and the message |
| ContactHandler.LoadConfig | backend/lambda_functions/contact_form.py:36-39 | the staff list joined with ',' is the configured text, with no ',' inside an address; storage is on exactly for "true" in any letter case |
| ContactHandler.StoreFlag | backend/lambda_functions/contact_form.py:39 | `.lower() == 'true'` holds exactly for "true" in any letter case |
| ContactHandler.DefaultConfig | backend/lambda_functions/contact_form.py:36-39 | with no environment: sender orders@rrinconline.com, the two default staff addresses, table sticker_magnet_lab_contacts, storage on |
| ContactHandler.BuildCorsResponse | backend/lambda_functions/contact_form.py:42-62 | the response carries the status, the body, and exactly the four headers: JSON content type, origin `*`, methods `POST,OPTIONS` |
| ContactHandler.StoreContact | backend/lambda_functions/contact_form.py:302-323 | with storage off it reports success and makes no call; otherwise it puts the record once and reports the put's outcome |
| ContactHandler.MailText | backend/lambda_functions/contact_form.py:156-159 | a given text is kept; an empty one is replaced by the fallback, which is no longer than the HTML |
| ContactHandler.SendEmail | backend/lambda_functions/contact_form.py:143-189 | one SES call from the configured sender, with the fallback text only when none is given; reports the call's outcome |
| ContactHandler.StaffSubject | backend/lambda_functions/contact_form.py:383 | "Contact Form: " followed by exactly the first 50 code points of the subject, or all of it when it is shorter |
| ContactHandler.LambdaHandler | backend/lambda_functions/contact_form.py:326-416 | preflight answers 200 with "CORS preflight successful"; non-JSON answers 400 with no details; a non-object body answers 500; validation errors answer 400 with the error list as details. None of these calls AWS. Otherwise it stores (when on), notifies staff and replies, in that order, and answers 200 with the record's id whatever those calls returned. Every response has the CORS headers |
| ContactHandler.Process | backend/lambda_functions/contact_form.py:365-398 | an accepted form yields the record's id in a 200 answer and the ordered store/notify/reply calls |
| ContactHandler.AcceptedEffectsOrder | backend/lambda_functions/contact_form.py:380-390 | after acceptance there are 3 calls with storage on and 2 with it off; the put comes first; staff get the "Contact Form: …" subject, the sender gets the thank-you subject; every mail comes from the configured sender with a text no longer than its HTML |
| ContactHandler.StaffMailShowsRecord | backend/lambda_functions/contact_form.py:384 | the staff mail of an accepted form shows every record field and links a reply to the sender's address with the subject |
| ContactHandler.AutoReplyShowsRecord | backend/lambda_functions/contact_form.py:389 | the auto-reply of an accepted form shows the record's name, subject and message |
| EmailTemplates.ProductLabelShape | backend/utils/email_templates.py:169 | the label is as long as the product type, has no '_', shows each '_' as a space, and keeps other non-letters |
| EmailTemplates.ProductLabelIdempotent | backend/utils/email_templates.py:169 | labelling a label changes nothing |
| EmailTemplates.ProductLabelWords | backend/utils/email_templates.py:169 | each word between underscores is capitalised on its own |
| EmailTemplates.DieCutLabel | backend/utils/email_templates.py:312 | "die_cut" is labelled "Die Cut" |
| EmailTemplates.AddressLines | backend/utils/email_templates.py:302-306 | street first; the apartment only when truthy; then `"city, state zip"`; then the country, "USA" when its key is missing |
| EmailTemplates.NonEmpty | backend/utils/email_templates.py:307 | `filter(None, …)` keeps exactly the non-empty lines, and all of them when none is empty |
| EmailTemplates.NonEmptyConcat | backend/utils/email_templates.py:307 | filtering works line by line over concatenation, so the kept lines stay in their order |
| EmailTemplates.NonEmptyLine | backend/utils/email_templates.py:307 | a single line is kept exactly when it is non-empty |
| EmailTemplates.AddressHtml | backend/utils/email_templates.py:302-307 | the appended lines, filtered and joined with `<br>`, are the specified address block |
| EmailTemplates.FullAddress | backend/utils/email_templates.py:302-307 | a full address is street, apartment, city line and country joined by `<br>` |
| EmailTemplates.StreetlessAddress | backend/utils/email_templates.py:302-307 | without street and apartment the block is the city line and the country, "USA" when the key is missing |
| EmailTemplates.CustomerItemsHtml | backend/utils/email_templates.py:167-183 | the loop yields the rows of the items in list order |
| EmailTemplates.CustomerRowShows | backend/utils/email_templates.py:169-183 | a row shows the product label, the size and the quantity (0 when missing) |
| EmailTemplates.ShownDate | backend/utils/email_templates.py:160 | the date shown is the first 10 code points of `orderDate`, or all of it when it is shorter |
| EmailTemplates.ShippingText | backend/utils/email_templates.py:246 | "FREE" when shipping is at most 0, else the rendered amount |
| EmailTemplates.CustomerConfirmationHtml | backend/utils/email_templates.py:141-280 | the confirmation HTML is the intro, the rows of every item in list order, then the closing table markup and the totals |
| EmailTemplates.ConfirmationShows | backend/utils/email_templates.py:158-280 | the confirmation shows the order id, the greeted name, the date and the shipping cell |
| EmailTemplates.ConfirmationShowsRows | backend/utils/email_templates.py:233 | the confirmation holds every item's row |
| EmailTemplates.EmptyOrderDefaults | backend/utils/email_templates.py:158-166 | an empty order shows id "N/A", greets "Valued Customer", shows an empty date and no rows, and ships free |
| EmailTemplates.ArtworkUrl | backend/utils/email_templates.py:316 | `artworkS3Url` stands in only when `artworkUrl` is missing, not when it is empty |
| EmailTemplates.Instructions | backend/utils/email_templates.py:317 | "None" when the instructions are missing or empty, else the instructions |
| EmailTemplates.StaffItemsHtml | backend/utils/email_templates.py:310-335 | the loop yields the rows numbered from 1 in list order |
| EmailTemplates.StaffRowShows | backend/utils/email_templates.py:311-335 | row n shows n, the label, the artwork link and the instructions |
| EmailTemplates.StaffRowsNumbered | backend/utils/email_templates.py:311 | the k-th item's row carries k + 1 and sits after the rows before it |
| EmailTemplates.StaffOrderHtml | backend/utils/email_templates.py:283-440 | the staff order HTML is the specified concatenation of its fields, address block and rows |
| EmailTemplates.StaffOrderShows | backend/utils/email_templates.py:294-440 | the staff e-mail shows the order id, the date, the customer's name ("N/A") and phone ("Not provided"), the address block and every row |
| EmailTemplates.ContactAutoReplyShows | backend/utils/email_templates.py:456-490 | the auto-reply shows name, subject and message, defaulted to "Customer", "General Inquiry" and "" only for missing keys |
| EmailTemplates.NoticeOf | backend/utils/email_templates.py:541-546 | every present key is used as it is, even when empty; missing ones default to "N/A" (id), "Unknown" (name, e-mail), "No Subject", and "" (message, timestamp) |
| EmailTemplates.ContactNotificationShows | backend/utils/email_templates.py:548-606 | the notification shows id, timestamp, name, e-mail, subject and message verbatim, the link `mailto:{email}?subject=Re: {subject}`, and "Reply to {name}" |

## Left out

- SanitizeInput: the default `max_length=5000` is not modelled; every call in the handler passes its own cap.
- AWS clients (`boto3`, SES, DynamoDB) and `ClientError` handling are not modelled. Each call is an `Effect` and its outcome a boolean, so the "Failed to process your message" 500 path cannot arise.
- Exceptions other than `ClientError` raised inside `send_email` or `store_contact` are not modelled. They would reach the 500 "Internal server error" path.
- Environment reading at import time is not modelled. `LoadConfig` takes the environment as a map.
- `json.loads` and `json.dumps` are not modelled:
  - the request body arrives classified, as a dictionary of strings, text that is not JSON, or JSON that is not an object;
  - the response body is kept as a dictionary, so key order and serialisation are not modelled.
- Form values that are not strings (numbers, `null` in the JSON) are not modelled. Calling `.strip()` on them would raise and give the 500 path.
- `uuid.uuid4()` and `datetime.utcnow().isoformat()` are parameters (`uuidText`, `isoNow`).
- Logging is not modelled.
- The `__main__` stub and the two `__init__.py` files are not part of this model.
- `format_currency`, `float(...)` and the totals are floating point with locale-free `:,.2f` formatting. The templates take the rendering as a function parameter, and amounts are `real`, defaulting to 0.
- `get_base_styles`, the brand colours and all static markup are opaque constants.
- `lower()`, `title()` and the `strip()` whitespace set cover ASCII letters and the code points Python's `isspace` accepts. They have no Unicode case mapping beyond ASCII.
- The nested order dictionaries are typed records, each key optional. A key whose value has the wrong type is not modelled.
