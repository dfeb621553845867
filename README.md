# Notification and email stores, modelled in Dafny

Two small event-driven microservices. The notifications service keeps user notifications in an in-memory, insertion-ordered dictionary. It supports creation (from an HTTP request or a broker event), per-user pagination, an unread count, marking one or all as read, and deletion. The email service exists twice, once in Python and once in Node.js. Each keeps a log of sent and failed emails. The Python one picks the email body (template or literal) and answers lookup, paging and status-count queries. The Node one substitutes `{{key}}` placeholders, turns line breaks into `<br>`, keeps its log newest-first and keeps running counters.

Layout, one module per source component:

- `common.dfy` (`Common`): `Option`, `Result`, timestamps, string truthiness.
- `sequences.dfy` (`Sequences`): the clamped slice that every pagination uses, and the value view `ValuesOf` of an insertion-ordered dictionary.
- `notification_schemas.dfy`, `notification_service.dfy` (`NotificationSchemas`, `NotificationServices`): the notification records, and the class `NotificationService` with its specification functions and lemmas.
- `email_schemas.dfy`, `email_service.dfy` (`EmailSchemas`, `EmailServices`): the Python email records and the class `EmailService`.
- `text_replace.dfy` (`TextReplace`): literal global replacement, i.e. JavaScript's `replace` with a `g` regular expression that has no metacharacters.
- `email_service_node.dfy` (`NodeEmailServices`): the Node.js `EmailService`.

A Python dictionary is modelled as two class fields:

- `order`: the keys in insertion order;
- a `map` from id to record.

`Valid()` ties the two together and requires each record's id to equal its key. `dict.values()` is `ValuesOf(order, map)`. The outside world is passed in as parameters:

- the Python `uuid4()` is a fresh `id`, with `requires id !in store` on both Python stores; the Node `uuidv4()` is an `id` argument that may be any value, since the Node log is a list with no freshness condition;
- the clocks are `Timestamp` arguments;
- Jinja2 is a function-valued argument that receives the template name and data;
- nodemailer's `sendMail` is a function from the message to `Delivered(messageId)` or `Rejected(error)`;
- the exception the Python `send_email` may catch is an optional error message.

Three behaviours of the code that a reader may not expect:

- When a template name is unknown, the Python service falls back to the template data's `body` entry (or `""`), not to the request's body (`UnknownTemplateIgnoresRequestBody`).
- The Node service records a failed delivery and then rethrows it. It does not return a record.
- A notification created from a broker event keeps neither the event's `timestamp` nor its `event_type`. Its `created_at` is the service's clock reading (`NotificationServices.NotificationService.ProcessKafkaEvent`).

## Model

| member | source | states |
|---|---|---|
| `NotificationServices.NotificationService.CreateNotification` | notifications-service/app/services/notification_service.py:18-39 | exactly one record is added, under the fresh id and at the end of the insertion order; it is unread, its fields are copied from the command and both timestamps are `now`; every other record is unchanged |
| `NotificationServices.NotificationService.constructor` | notifications-service/app/services/notification_service.py:14-16 | the store starts with no notifications and an empty insertion order |
| `NotificationServices.ForUser` | notifications-service/app/services/notification_service.py:43-46 | the filtered list holds exactly the store's records of that user and is no longer than the store |
| `NotificationServices.ForUserAppend` | notifications-service/app/services/notification_service.py:43-46 | filtering distributes over concatenation, so a record created later appears later in its user's list |
| `NotificationServices.UserPage` | notifications-service/app/services/notification_service.py:43-49 | a page holds at most `limit` records, all of them the user's and all from the store |
| `NotificationServices.UserPagesTile` | notifications-service/app/services/notification_service.py:49 | page (0, n) followed by page (n, m) is page (0, n + m): no gaps and no overlaps |
| `Sequences.Page` | notifications-service/app/services/notification_service.py:49 | the slice `[skip:skip+limit]` has length `min(limit, len - skip)` (0 past the end), and element i is element `skip + i` of the input |
| `Sequences.PagesTile` | email-service/app/services/email_service.py:132 | consecutive slices of any sequence tile it |
| `NotificationServices.NotificationService.GetUserNotifications` | notifications-service/app/services/notification_service.py:41-50 | at most `limit` results, each with the requested `user_id` and each equal to the stored record under its id |
| `NotificationServices.UnreadCount` | notifications-service/app/services/notification_service.py:54-57 | the count is bounded by the number of records counted |
| `NotificationServices.UnreadCountZero` | notifications-service/app/services/notification_service.py:54-57 | the count is 0 exactly when none of the user's records is unread (both directions) |
| `NotificationServices.UnreadCountCountsKeys` | notifications-service/app/services/notification_service.py:54-57 | summing over the values in insertion order equals the number of distinct keys whose record is an unread record of the user |
| `NotificationServices.NotificationService.GetUnreadCount` | notifications-service/app/services/notification_service.py:52-57 | the result is the number of stored ids whose notification belongs to the user and is unread |
| `NotificationServices.NotificationService.MarkAsRead` | notifications-service/app/services/notification_service.py:59-65 | unknown id: returns None and the store is unchanged; known id: only that record changes (is_read true, updated_at now) and it is returned; read flags become old flag or "is this id", so a second call changes no flag |
| `NotificationServices.NotificationService.MarkAllAsRead` | notifications-service/app/services/notification_service.py:67-75 | returns the number of the user's previously unread records; afterwards the user has none unread; each record changes only if it was an unread record of the user; keys and order are unchanged |
| `NotificationServices.MarkStep` | notifications-service/app/services/notification_service.py:70-74 | one loop iteration marks the current record if it is an unread record of the user and leaves every later record untouched |
| `NotificationServices.ValuesAfterMarkAll` | notifications-service/app/services/notification_service.py:70-74 | once the loop has visited every key, the values are the marked-all values of the old store and none of the user's records is unread |
| `NotificationServices.MarkAllClearsUnread` | notifications-service/app/services/notification_service.py:67-75 | after mark-all-as-read the user's unread count is 0 |
| `NotificationServices.MarkAllIdempotent` | notifications-service/app/services/notification_service.py:67-75 | marking all as read a second time changes nothing |
| `NotificationServices.NotificationService.DeleteNotification` | notifications-service/app/services/notification_service.py:77-83 | returns true iff the id was present; afterwards it is absent, the other records are unchanged and keep their relative order |
| `NotificationServices.WithoutId` | notifications-service/app/services/notification_service.py:79-80 | removing an id keeps exactly the records with other ids |
| `NotificationServices.ValuesAfterDelete` | notifications-service/app/services/notification_service.py:79-80 | deleting a key from the ordered dictionary removes just that record from its values, keeping the others in order |
| `Sequences.Without` | notifications-service/app/services/notification_service.py:80 | the remaining key order holds exactly the other keys and stays duplicate-free |
| `NotificationServices.ToCreateCommand` | notifications-service/app/services/notification_service.py:90-98 | the create command takes user, title, message and the three related ids from the event, and its type from notification_type |
| `NotificationServices.NotificationService.ProcessKafkaEvent` | notifications-service/app/services/notification_service.py:85-100 | creates exactly one unread notification whose type is the event's notification_type, with user, title, message and related ids copied from the event, both timestamps `now`, and the new id appended to the insertion order |
| `EmailServices.EmailService.constructor` | email-service/app/services/email_service.py:18-20 | the log starts empty; the three template names are the constant `TemplateNames` |
| `EmailServices.RenderTemplate` | email-service/app/services/email_service.py:113-119 | a known name is rendered by Jinja2 with the data; any other name gives the data's `body` entry, or "" without one; what this means for the stored body is carried by `UnknownTemplateIgnoresRequestBody` and `RendererOnlyForKnownTemplates` |
| `EmailServices.SelectBody` | email-service/app/services/email_service.py:60-65 | the stored body differs from the request body only when both template_name and template_data are truthy; with both truthy and a known name it is Jinja2's rendering of that template with the data |
| `EmailServices.RendererOnlyForKnownTemplates` | email-service/app/services/email_service.py:113-119 | Jinja2 is consulted only for one of the three named templates: for any other or missing name the body does not depend on the renderer |
| `EmailServices.UnknownTemplateIgnoresRequestBody` | email-service/app/services/email_service.py:115-116 | with an unknown template name and template data lacking `body`, the stored body is "" whatever the request body was |
| `EmailServices.EmailService.SendEmail` | email-service/app/services/email_service.py:55-111 | adds exactly one log entry under the fresh id; on success it is sent with sent_at set and no error; on failure it is failed with no sent_at and the error message; the returned status is never pending; stats move by exactly one in the matching counter |
| `EmailServices.EmailService.GetEmailLog` | email-service/app/services/email_service.py:121-125 | Some iff the id is stored, and then it is the response of that stored entry |
| `EmailServices.EmailService.GetEmailLogs` | email-service/app/services/email_service.py:127-133 | length is `min(limit, n - skip)` (0 past the end), and element i is the response of the entry inserted at position `skip + i` |
| `EmailServices.CountStatus` | email-service/app/services/email_service.py:137-139 | a status count never exceeds the number of entries |
| `EmailServices.CountStatusAppend` | email-service/app/services/email_service.py:137-139 | appending one entry raises only its own status's count, by one |
| `EmailServices.StatusCountsPartition` | email-service/app/services/email_service.py:137-139 | sent + failed + pending counts equal the number of entries |
| `EmailServices.NoPendingCounted` | email-service/app/services/email_service.py:139 | with no pending entry the pending count is 0 |
| `EmailServices.EmailService.GetEmailStats` | email-service/app/services/email_service.py:135-145 | total_pending is 0 and total_sent + total_failed equals the number of logged emails |
| `EmailServices.ToRequest` | email-service/app/services/email_service.py:152-162 | the send request takes every field of the event except its timestamp, with event_type present |
| `EmailServices.EmailService.ProcessKafkaEvent` | email-service/app/services/email_service.py:147-164 | the event's fields reach the log unchanged, its event_type becomes the log's event_type, and exactly one entry is added |
| `TextReplace.ReplaceAllAbsent` | email-service-node/src/services/emailService.js:116 | replacing a pattern that does not occur leaves the text unchanged |
| `TextReplace.ReplaceAll` | email-service-node/src/services/emailService.js:116 | the left-to-right, non-overlapping global replacement; replacing a pattern by itself leaves the text unchanged |
| `TextReplace.ReplaceAllOneChar` | email-service-node/src/services/emailService.js:123 | global replacement of a one-character pattern is a character-by-character map |
| `TextReplace.ReplaceCharRemoves` | email-service-node/src/services/emailService.js:123 | no replaced character survives when the replacement lacks it |
| `TextReplace.ReplaceCharAbsent` | email-service-node/src/services/emailService.js:123 | text without the character is unchanged |
| `TextReplace.ReplaceCharLength` | email-service-node/src/services/emailService.js:123 | each replaced character grows the text by the replacement's length minus one |
| `NodeEmailServices.ProcessTemplate` | email-service-node/src/services/emailService.js:112-119 | the loop result is the template with each entry's `{{key}}` replaced everywhere by its value, one entry after the other, in entry order |
| `NodeEmailServices.SubstitutedSequential` | email-service-node/src/services/emailService.js:114-117 | substituting entries a then b is substituting a + b |
| `NodeEmailServices.SubstitutedUnusedKeys` | email-service-node/src/services/emailService.js:114-117 | when no entry's placeholder occurs in the template, the template is returned unchanged (in particular for empty data) |
| `NodeEmailServices.SubstitutedSelfValues` | email-service-node/src/services/emailService.js:114-117 | entries whose value is their own `{{key}}` marker leave the template unchanged |
| `NodeEmailServices.FormatEmailBody` | email-service-node/src/services/emailService.js:121-124 | the HTML has no line break, a body without line breaks is unchanged, and each line break adds three characters |
| `NodeEmailServices.PlainPrefix` | email-service-node/src/services/emailService.js:123 | a prefix free of `<` and line breaks that begins the formatted body also begins the body itself |
| `NodeEmailServices.BreaksBackToNewlines` | email-service-node/src/services/emailService.js:123 | turning every `<br>` of the character-mapped body back into a line break restores a body that had no `<br>` |
| `NodeEmailServices.FormatEmailBodyRoundTrip` | email-service-node/src/services/emailService.js:121-124 | turning every `<br>` of the HTML back into a line break gives back the text body, for bodies holding no `<br>` of their own |
| `NodeEmailServices.Recipient` | email-service-node/src/services/emailService.js:51 | a truthy to_name gives `"name" <email>`, laid out so name and address can be read back at fixed positions; otherwise the bare address |
| `NodeEmailServices.ProcessedBody` | email-service-node/src/services/emailService.js:43-46 | without template data the body is kept; with template data it is kept too when none of the entries' placeholders occurs in it |
| `NodeEmailServices.MailOptionsFor` | email-service-node/src/services/emailService.js:42-55 | the sender is the configured `"name" <address>`, the subject is the request's, the HTML part is the formatted text part, the recipient is as above, and the text is the request body when there is no template data or none of its placeholders occurs in the body |
| `NodeEmailServices.Placeholder` | email-service-node/src/services/emailService.js:115 | the marker is four characters longer than the key: `{{`, then the key, then `}}` |
| `NodeEmailServices.CountStatus` | email-service-node/src/services/emailService.js:79 | a status count never exceeds the log length |
| `NodeEmailServices.SentAndFailedCoverLog` | email-service-node/src/services/emailService.js:63-107 | every log entry is counted as either sent or failed |
| `NodeEmailServices.EmailService.constructor` | email-service-node/src/services/emailService.js:6-15 | the log starts empty with all three counters 0 |
| `NodeEmailServices.EmailService.SendEmail` | email-service-node/src/services/emailService.js:37-110 | the new entry goes to index 0 and older entries are unchanged; delivered: status sent, sent_at and message id set, total_sent + 1, result Ok; rejected: status failed, no sent_at, error message kept, total_failed + 1, the error is rethrown; the counters keep matching the log |
| `NodeEmailServices.EmailService.GetEmailLogs` | email-service-node/src/services/emailService.js:126-128 | the first `min(limit, length)` entries, i.e. the most recent ones, newest first |
| `NodeEmailServices.EmailService.GetStats` | email-service-node/src/services/emailService.js:130-132 | total_sent + total_failed equals the log length and total_pending is 0 |

## Left out

- Broker consumers and producers, the daemon thread, connection timeouts, connect and disconnect: these are I/O. The model has one store per service. The notifications consumer's use of a second `NotificationService` instance (notifications-service/app/main.py:45) is not modelled.
- The HTTP routes: they map requests onto the store. Only their query bounds are kept, as preconditions of the paging functions (skip ≥ 0, 1 ≤ limit ≤ 100).
- `NotificationServices.NotificationService.GetUserNotifications` requires the route's bounds, although the Python method itself also accepts negative or zero values, which Python slicing gives other meanings.
- `EmailServices.EmailService.GetEmailLogs` requires the route's bounds for the same reason.
- Pydantic validation of the raw event dictionary and of `EmailStr` is library behaviour. The models take the already-validated event. On a validation error the source raises and stores nothing, which is not modelled.
- Jinja2 rendering of the three known templates is a foreign library. It is a function-valued parameter, and the template texts are not modelled. So the claim that a rendered template has no unresolved placeholders is not modelled either.
- SMTP and nodemailer: delivery is a parameter. If `createTransport` throws, the transporter stays null and every `sendMail` throws. If `verify()` fails, the error is only logged and `sendMail` is still tried. Either way the transport may reject a message, which the `transport` parameter allows. `getHealth` is left out.
- `NotificationServices.NotificationService.CreateNotification` uses one clock reading for both `created_at` and `updated_at`. The source reads the clock twice at nearly the same moment.
- `NotificationServices.NotificationService.MarkAllAsRead` gives every record it marks the same `updated_at`. The source reads the clock once per marked record.
- `EmailServices.EmailService.SendEmail` uses one clock reading for both `created_at` and `sent_at`. The source reads the clock twice at nearly the same moment.
- `EmailServices.EmailService.SendEmail` models failure as raised before the entry is stored, so exactly one entry is written either way.
- `NodeEmailServices.ProcessTemplate`: keys are taken to contain no regular-expression metacharacters and values no `$` replacement patterns, so each step is a literal global replace. Keys are also not of the form `n`, `n,` or `n,m` with `n` and `m` digit strings: such a key makes `{{key}}` parse as a literal `{` followed by the quantifier `{key}` and a literal `}`, so the source matches a run of opening braces followed by `}` and not the marker (for `{"1": "X"}`, `"Hi {{1}}"` stays unchanged in the source but becomes `"Hi X"` here). The JavaScript ordering of integer-like object keys is not modelled; entries are taken in the given order.
- Template data and `data.get("body")` values are taken to be strings. JavaScript's conversion of non-string values is not modelled.
- The Node service's `getEmailLogs` default of 50 and JavaScript's meaning of a negative limit are not modelled; `limit` is a natural number.
- `NodeEmailServices.EmailService.SendEmail` takes a well-typed request with every field a string, an optional string, or a list of string pairs. The source takes the raw `JSON.parse` output of a broker message without validation. A message without a string `body` throws inside the `try` (at `formatEmailBody` or `processTemplate`) before `sendMail` is called, so a failed entry is logged and `total_failed` grows. In the model a failure comes only from the transport.
- `NodeEmailServices.EmailService.SendEmail` returns the value of the new log entry. The source returns the stored object itself, so a caller's change to it would change the log. This aliasing is not modelled.
- `NodeEmailServices.EmailService.GetEmailLogs` returns the values of the newest entries. The source returns a shallow copy of the log array that shares its entry objects with the log. This aliasing is not modelled.
- `NodeEmailServices.EmailService.GetStats`: `getStats` returns the live counters object in the source. Here it returns a copy of its value.
- Logging and the mutual exclusion that concurrent access would need are not modelled: every operation runs to completion before the next.
