# WhatsApp bulk messenger: the send loop, in Dafny

This project models the core of a small bulk-messaging server (`index.js`). An operator
uploads a spreadsheet of contacts. The `/send-messages` handler then walks the contacts in
order. For each contact it:

- strips the phone field down to its ASCII digits;
- appends `@c.us` to get a chat id;
- asks the chat library whether that number is registered;
- sends the message only if it is;
- tallies the contact into exactly one of the counters `successful`, `notRegistered` or
  `failed`, and appends one detail record to the report.

An exception while handling one contact is caught, recorded as a failure, and the loop goes
on with the next contact. Apart from that handler, the server keeps the latest QR payload
of the chat library in a global and replays it to every observer that connects later.

Modules:

- `Wrappers` (`wrappers.dfy`): the `Option` type, standing for a value that may be
  `undefined`, and `Result`, standing for either a value or a thrown error's message.
- `Phone` (`phone.dfy`): the phone field as it arrives in the request body: a string, a
  number (a numeric spreadsheet cell) or absent. It also holds `toString()`, the digit
  filter `replace(/[^\d]/g, '')`, and the chat-id suffix.
- `BulkSend` (`bulk_send.dfy`): the loop, modelled two ways:
  - as the method `SendMessages`, with local mutable counters, as in the source;
  - as the specification `Run`/`ReportOf`, a fold of the per-contact step `Handle`.
  The chat library is an oracle. `replies[i]` says what `isRegisteredUser` and
  `sendMessage` do for the i-th contact: resolve truthy, resolve falsy or throw for the
  first, and complete or throw for the second. Besides the report, the method returns the
  log of calls it made into the library, so that "send only after a successful check" can
  be stated.
- `QrReplay` (`qr_replay.dfy`): the class `QrHolder`, with the field `qrCode`
  (`global.qrCode`) and the handlers for `qr`, `ready` and a new socket connection.

Facts about the code worth stating, since a reader might expect otherwise:

- There is no "invalid phone number" check. A phone with no digits gives the chat id
  `@c.us`, and the library is still asked about it (`DigitlessPhoneIsStillChecked`).
- A number reported as not registered is counted in `notRegistered`, not `failed`. Its
  detail record still has status `failed`, with the fixed error "Number not registered on
  WhatsApp".
- The handler never checks that the chat client is ready before sending.
- The `ready` handler does not clear the stored QR value. A later observer is still sent
  the old QR code (`ReplayAfterReady`).
- Nothing is persisted, no image is attached, and there is no message history, template
  store, logout or client rebuild in this code.

## Model

| member | source | states |
|---|---|---|
| Phone.PhoneToString | index.js:91 | `contact.phone.toString()`: throws the TypeError message exactly when the field is absent; a string is returned as is; an integer gives its canonical decimal digits (no leading zero except for 0 itself), with a leading '-' when negative, and those digits read back to its magnitude |
| Phone.Decimal | index.js:91 | the rendering of a number is a non-empty string of digits whose first digit is '0' only when the whole string is "0" |
| Phone.DecimalRoundTrip | index.js:91 | reading back the digits of a decimal rendering gives the number again |
| Phone.Normalise | index.js:91 | the normalised number contains only the characters '0'-'9' and is no longer than the input |
| Phone.NormaliseKeepsDigits | index.js:91 | every digit occurs in the normalised number as often as in the input, and no other character occurs in it |
| Phone.NormaliseAppend | index.js:91 | normalising a concatenation concatenates the normalised parts, so the digits keep their original order |
| Phone.NormaliseChar | index.js:91 | a single character is kept exactly when it is a digit |
| Phone.NormaliseFixedIff | index.js:91 | the input comes back unchanged if and only if it consists of digits only |
| Phone.NormaliseIdempotent | index.js:91 | normalising twice gives the same result as normalising once |
| Phone.NormaliseNumber | index.js:91 | a numeric phone cell normalises to the digits of its magnitude; a minus sign is dropped |
| Phone.ChatId | index.js:92 | the chat id is the number followed by the literal suffix "@c.us" |
| Phone.NumberOf | index.js:92 | the part of a chat id up to its first '@' (or the whole id when it has none): a prefix with no '@' in it, followed by '@' or by the end |
| Phone.NumberOfChatId | index.js:91-92 | the normalised number can be read back from the chat id built from it |
| Phone.ChatIdInjective | index.js:92 | different numbers give different chat ids |
| BulkSend.ContactChatId | index.js:91-92 | the chat id asked about for a contact is exactly its normalised phone digits followed by "@c.us", and those digits are what lies before its first '@' |
| BulkSend.Handle | index.js:90-124 | for one contact: the detail keeps the contact's name and original phone field; status 'success' exactly when the contact is tallied as successful and exactly when there is no error; a not-registered number gets the fixed error; a thrown check or send records its message; an absent phone makes no library call and records the TypeError; the library is asked about the contact's chat id, and a send of the batch's message to that chat id follows only when the check said registered |
| BulkSend.CountInPartition | index.js:97-124 | every contact falls in exactly one of the three buckets |
| BulkSend.RunCounts | index.js:97-124 | the three counters are the numbers of contacts whose library replies put them in each bucket |
| BulkSend.RunDetails | index.js:89-124 | one detail per contact, in input order; the i-th detail depends only on the i-th contact and its library replies |
| BulkSend.Run | index.js:89-124 | the fold of the per-contact step over the contacts in order: the three counters add up to the number of contacts, and there is one detail per contact |
| BulkSend.ReportOf | index.js:81-124 | the report: `total` is the number of contacts, the counters add up to it, and there are as many details as contacts |
| BulkSend.ReportDetails | index.js:97-124 | detail i has contact i's name and original phone field; its status is 'success' exactly when the phone is present, the check said registered and the send completed; it has an error exactly when it is not a success, and the error is the TypeError message, the check's exception message, "Number not registered on WhatsApp", or the send's exception message, as the case may be |
| BulkSend.LaterContactsUnaffected | index.js:116-124 | a failure never cuts the batch short: the details of a batch `a + b` are those of `a` followed by those of `b` handled on its own |
| BulkSend.SendsFollowChecks | index.js:95-108 | in the log of library calls, every send carries the batch's message and comes right after the registration check of the same chat id |
| BulkSend.HandleSends | index.js:95-108 | one contact adds a send to the log exactly when its phone is present and the check answered truthy, and then exactly one, of the batch's message to its own chat id |
| BulkSend.SendsOnlyToRegistered | index.js:95-108 | every send in the whole log is the batch's message to the chat id of some contact whose phone is present and whose registration check answered truthy |
| BulkSend.RegisteredAreSent | index.js:95-108 | every contact whose phone is present and whose check answered truthy is sent the batch's message at its chat id |
| BulkSend.SendCount | index.js:95-108 | the log holds exactly as many sends as there are contacts with a present phone and a truthy registration check |
| BulkSend.CountSendCallsAppend | index.js:108 | the sends of two concatenated call logs add up |
| BulkSend.DigitlessPhoneIsStillChecked | index.js:91-95 | a phone string without digits still leads to a registration check, for the chat id "@c.us" |
| BulkSend.SendMessages | index.js:79-131 | the loop, with its counters starting at 0 and `total = contacts.length`: returns exactly the report and the call log of the specification fold; the counters add up to the total, there is one detail per contact, and detail i carries contact i's name and phone field |
| QrReplay.QrHolder.constructor | index.js:41 | nothing is stored before the first `qr` event |
| QrReplay.QrHolder.OnQr | index.js:51-57 | the stored value becomes the latest payload, and the payload is broadcast |
| QrReplay.QrHolder.OnReady | index.js:59-62 | the `ready` event is broadcast; the stored QR value is not changed |
| QrReplay.QrHolder.OnConnection | index.js:37-43 | a new observer is sent the latest stored payload if one exists and is non-empty (JavaScript truthiness), and nothing otherwise |
| QrReplay.ReplayAfterReady | index.js:37-62 | after `qr` and then `ready`, a new observer still receives that QR payload, unless it is empty |
| QrReplay.LatestQrWins | index.js:41-57 | after two `qr` events, a new observer receives the second payload only |

## Left out

- HTTP and file plumbing: `express` routing, `multer` disk storage, `res.json`, and the
  `{ success: true, report }` wrapper of the response (index.js:1-35, 68-77, 130, 133-135).
  The model returns the report itself.
- Spreadsheet parsing (`xlsx.readFile`, `sheet_to_json`) belongs to a library outside this
  model. The contacts are a given sequence.
- whatsapp-web.js (`Client`, `initialize`, `isRegisteredUser`, `sendMessage`) is foreign
  code. Its behaviour is the `replies` input, one entry per contact, so `SendMessages`
  requires as many replies as contacts.
- The socket.io transport (`io.emit`, `socket.emit`): broadcasts are return values. There
  is no set of connected observers.
- The one-second `setTimeout` pause (index.js:127) is timing only and does not change the
  report. It follows every contact except a not-registered one, whose `continue`
  (index.js:105) skips it.
- Concurrency: two overlapping requests to the same async handler are not modelled. Each
  request has its own report, and only the library client is shared.
- Malformed request bodies: a `contacts` value that is missing or not iterable makes
  `contacts.length` or the `for...of` throw outside the `try`. That is not modelled, and
  neither is a string, whose characters the loop would walk as contacts without a phone;
  `contacts` is always a sequence of contacts.
- `contact.name` is modelled as a string; an absent or non-string name is not modelled.
- An exception that is not an `Error` object has no `.message`. The model always records a
  message string.
- Phone.PhoneToString: only strings, integers and absent fields are modelled. A number with a
  fractional part, exponent rendering for magnitudes of 10^21 and more, precision loss above
  2^53, booleans and `null` are not.
- The browser pages (public/js/app.js, public/scripts.js) only render the report and poll
  for status. They are not modelled.
