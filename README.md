# MobilizeHub Payload plugin: a verified model of the email and form pipeline

This project models, in Dafny, the core of the MobilizeHub plugin for the
Payload CMS: how a broadcast email reaches its audience, how delivery events
come back, how a recipient unsubscribes, and how a public form submission
becomes a contact and an automatic reply.

- **Broadcasts.** An editor starts a draft broadcast through the
  send-broadcast endpoint, which snapshots the audience size and marks it
  `sending`. The scheduled `send-broadcasts` task takes the oldest `sending`
  broadcast. It validates the broadcast, pages through the opted-in (and
  optionally tagged) contacts by an id cursor, and queues one `send-email`
  job per contact. It marks the broadcast `sent` when a page comes back empty.
- **Delivery.** Each `send-email` job skips a (broadcast, contact) pair that
  already has an Email record. Otherwise it records the email as `queued`,
  records a signed unsubscribe token that points at it, hands the message to
  the transport with an idempotency key, and marks the record `sent`.
- **Provider events.** The Resend adapter's webhook authenticates Svix-signed
  events and appends one activity entry to the matching email. The emails
  collection's hook then re-derives the email's status from its activity log
  by a fixed priority order. The webhook endpoint acknowledges every request
  so that the provider does not retry.
- **Unsubscribing.** The public unsubscribe endpoint verifies the token,
  follows its record to the email, and opts out the first contact with the
  recipient's address.
- **Forms.** The public form-submission endpoint validates a submission
  against the form's contact fields and creates it. The submission
  collection's `beforeChange` hook upserts the contact, merges the form's
  tags and links the submission. Its `afterChange` hook sends the form's
  automatic reply.
- **Supporting parts.** The API envelope, the `authenticated` access rule,
  sender formatting and address validation, the slug and contact-field
  fields, and the collection-level hooks are modelled as well.

## How the model is built

- **The store.** The database is a value `Store.State`, with one sequence per
  collection kept in id order and a map of token records. The queued jobs
  and the messages handed to the transport are sequences too. A class
  `Store.Store` holds the same fields; the handlers update it in place.
- **Handlers.** Every handler that writes is a method on that class. Its
  `ensures` ties the new store and its answer to a pure specification
  function of the old store and its input. The properties are lemmas about
  those functions.
- **Parameters.** The clock, the random token id, the server secret, the
  email template and the transport's answer are parameters. So are HMAC,
  base64 and JSON: they are function values, and what the token codec relies
  on (decoding what was encoded, parsing what was stringified) is a
  predicate that the lemmas require.
- **Ids.** `number | string` ids are natural numbers, as on a database with
  numeric ids, and `0` stands for an absent relationship. An id sent in a
  request body as a string of decimal digits names the document with that
  number; any other string names none. A number with a fractional part is
  the single value `Json.Frac`: it passes a `typeof … === 'number'` check and
  `z.number()`, but names no document.
- **Code over documentation.** Where the source's documentation and its
  code differ, the model follows the code. Some consequences of the code:
  - The default email queue name is `send-emails` (src/tasks/sendBroadcastsTask.ts:94), although the type documentation says `send-email`.
  - A broadcast to 250 contacts with batches of 100 takes four runs: three that queue and a fourth that finds no contact and marks it `sent` (`Dispatcher.TwoHundredFiftyContactsTakeFourRuns`).
  - A webhook event the activity select rejects (`delivery_delayed`, `failed`, `received`) makes the update throw, so it is never recorded.
- **Hook registration.** No code in the repository registers the
  form-submission hooks: the collection registers only the override's
  `afterChange` hooks (src/collections/form-submissions/generateFormSubmissionsCollection.ts:61-64),
  and `src/index.ts` registers no collection. The model assumes the
  registration: it runs the processing hook as `beforeChange`, as
  src/endpoints/formSubmissionHandler.ts:182 says, and the autoresponse hook
  as `afterChange`, once the submission exists.

## Model

| member | source | states |
|---|---|---|
| ApiResponse.Code | src/utils/api-response.ts:68-81 | every error code is sent as the string equal to its key, and distinct codes as distinct strings |
| ApiResponse.SuccessResponse | src/utils/api-response.ts:43-45 | a success envelope carries `success: true`, the data, no error, and the status given (200 by default) |
| ApiResponse.ErrorResponse | src/utils/api-response.ts:61-63 | an error envelope carries `success: false`, `{code, message}` with the code's key, and the status given (400 by default) |
| ApiResponse.EnvelopeKindBySuccessFlag | src/utils/api-response.ts:5-27 | the two envelope shapes never coincide, and the `success` flag alone tells which one a well-formed body is |
| Access.Authenticated | src/access/authenticated.ts:5-7 | access is granted exactly when the request carries a user document; nothing else about the request matters |
| Access.AuthenticatedCases | src/access/authenticated.spec.ts:8-30 | a present user is let in; a `null` and an absent user are not |
| EmailAddress.FormatFromAddress | src/utils/email.ts:18-20 | an empty display name gives the bare address; a non-empty one gives the quoted name followed by the address in angle brackets, five characters longer than the two |
| EmailAddress.FormatFromAddressRoundTrip | src/utils/email.ts:18-20 | the display name and the address can be read back from the formatted sender, as long as the name holds no `"` and a bare address does not start with one |
| EmailAddress.IsValidEmail | src/utils/email.ts:39-41 | the address pattern, matched left to right; what it accepts is stated by `EmailAddress.IsValidEmailCharacterization`: no whitespace, one `@` after a non-empty local part, and a `.` inside the domain |
| EmailAddress.IsValidEmailCharacterization | src/utils/email.ts:39-41 | the address pattern holds exactly when the string has no whitespace, exactly one `@` after a non-empty local part, and a `.` in the domain at domain index 1 or later that is not the last character |
| EmailAddress.ValidEmailHasShape | src/utils/email.ts:39-41 | one direction of the characterisation: every accepted address has that shape |
| EmailAddress.ShapeIsValidEmail | src/utils/email.ts:39-41 | the other direction: every string of that shape is accepted |
| EmailAddress.AcceptsDottedDomain | src/utils/email.ts:22-41 | `local@host.rest` is accepted whenever the three pieces are non-empty and free of whitespace and `@` |
| EmailAddress.RejectsWithoutAt | src/utils/email.ts:39-41 | a string without `@` is rejected |
| EmailAddress.RejectsDotlessDomain | src/utils/email.ts:39-41 | an address whose domain has no `.` is rejected |
| EmailAddress.IsValidEmailAcceptsPlain | src/utils/email.ts:33 | `user@example.com` is accepted |
| EmailAddress.IsValidEmailAcceptsPlusTag | src/utils/email.ts:34 | `user+tag@example.com` is accepted |
| EmailAddress.IsValidEmailRejectsExamples | src/utils/email.ts:35-36 | `invalid` and `missing@domain` are rejected |
| SyncStatus.ActivityStatusNames | src/collections/emails/hooks/sync-status-from-activity.ts:10-20 | an activity carries the status of the same name, and clicked, delivery_delayed, failed, opened and received carry none |
| SyncStatus.StatusPriorityIndex | src/collections/emails/hooks/sync-status-from-activity.ts:22-38 | a listed status gets its index in queued < sent < delivered < bounced < complained < unsubscribed; an unlisted one gets 0 |
| SyncStatus.DerivedStatusIsMostSignificant | src/collections/emails/hooks/sync-status-from-activity.ts:40-64 | the derived status is absent exactly when no entry carries a status, and otherwise is the mapped status of highest priority in the log |
| SyncStatus.MappedPrioritiesDistinct | src/collections/emails/hooks/sync-status-from-activity.ts:14-33 | two statuses an activity can map to never share a priority |
| SyncStatus.MostSignificantUnique | src/collections/emails/hooks/sync-status-from-activity.ts:40-64 | a log has at most one most significant status |
| SyncStatus.MostSignificantTransfers | src/collections/emails/hooks/sync-status-from-activity.ts:40-64 | the most significant status depends only on which activity types occur |
| SyncStatus.DerivedStatusOrderIndependent | src/collections/emails/hooks/sync-status-from-activity.ts:40-63 | two logs holding the same activity types, in any order or multiplicity, derive the same status |
| SyncStatus.DerivedStatusRange | src/collections/emails/hooks/sync-status-from-activity.ts:14-20 | a derived status is one of sent, delivered, bounced, complained, unsubscribed: never queued and never failed, even for a failed activity |
| SyncStatus.StatusPriorityExamples | src/collections/emails/hooks/sync-status-from-activity.ts:40-63 | [sent, delivered, bounced] and [sent, bounced, delivered] both derive bounced; [sent] derives sent |
| SyncStatus.GetStatusFromActivity | src/collections/emails/hooks/sync-status-from-activity.ts:44-64 | the loop returns no status exactly when no entry carries one, and otherwise the most significant mapped status |
| SyncStatus.SyncStatusFromActivity | src/collections/emails/hooks/sync-status-from-activity.ts:69-86 | the hook changes nothing but `status`; with no derived status the document is unchanged, otherwise its status is the derived one |
| SyncStatus.SyncLeavesStatuslessLogs | src/collections/emails/hooks/sync-status-from-activity.ts:72-78 | a missing or empty log, or one of status-less activities only, leaves the document unchanged |
| SyncStatus.SyncStatusIsMostSignificant | src/collections/emails/hooks/sync-status-from-activity.ts:76-83 | when some entry carries a status, the resulting status is the most significant one of the log |
| SyncStatus.SyncDoesNotKeepHigherIncomingStatus | src/collections/emails/hooks/sync-status-from-activity.ts:76-83 | an incoming `unsubscribed` with a log of one `sent` becomes `sent`: the hook does not keep the higher of the old and derived statuses |
| CollectionHooks.UserHooks | src/collections/broadcasts/generateBroadcastsCollection.ts:228 | an override's `beforeChange` list contributes its hooks in order, and an absent one contributes none |
| CollectionHooks.RunHooksLast | src/collections/broadcasts/generateBroadcastsCollection.ts:227-240 | the last hook of a `beforeChange` list receives what all the earlier hooks made of the data |
| CollectionHooks.RunHooksFirst | src/collections/emails/generateEmailsCollection.ts:180-183 | the first hook of a `beforeChange` list receives the data as saved |
| EmailsCollection.StatusOptionsAreStatuses | src/collections/emails/generateEmailsCollection.ts:18-57 | the status options are exactly the names of the seven email statuses, and the declared default `draft` is not among them |
| EmailsCollection.ActivityTypesAccepted | src/collections/emails/generateEmailsCollection.ts:95-124 | an activity entry's type passes the select exactly when it is not delivery_delayed, failed or received |
| EmailsCollection.EmailsAccess | src/collections/emails/generateEmailsCollection.ts:164-169 | through the API, emails can only be read, and only by a logged-in user; create, update and delete are always refused |
| EmailsCollection.EmailsBeforeChangeAsWritten | src/collections/emails/generateEmailsCollection.ts:179-185 | as written, an override with a `beforeChange` list replaces the whole list, so the status hook is gone; without one the list is the status hook alone |
| EmailsCollection.EmailsBeforeChange | src/collections/emails/generateEmailsCollection.ts:179-183 | as intended, the status hook comes first and the override's hooks follow it |
| EmailsCollection.EmailsHooksAgreeWithoutOverride | src/collections/emails/generateEmailsCollection.ts:179-185 | without a `beforeChange` override both lists are the status hook alone, and saving applies exactly the status sync |
| EmailsCollection.SyncRunsFirst | src/collections/emails/generateEmailsCollection.ts:180-183 | with the intended list, the override's hooks receive the document after its status was synchronised |
| EmailsCollection.EmptyOverrideDropsSync | src/collections/emails/generateEmailsCollection.ts:179-185 | as written, an empty override list saves a bounced email as `sent`, where the intended list saves it as `bounced` |
| BroadcastsCollection.StatusOptionsAreStatuses | src/collections/broadcasts/generateBroadcastsCollection.ts:9-35 | the four status options name each broadcast status once, and the default is `draft` |
| BroadcastsCollection.ForceDraftOnCreate | src/collections/broadcasts/generateBroadcastsCollection.ts:229-239 | the plugin's hook changes nothing but `status`, makes every created broadcast a draft, and passes updates through unchanged |
| BroadcastsCollection.BroadcastsBeforeChange | src/collections/broadcasts/generateBroadcastsCollection.ts:226-240 | the plugin's hook runs after every hook the override supplies |
| BroadcastsCollection.CreatedBroadcastIsDraft | src/collections/broadcasts/generateBroadcastsCollection.ts:226-240 | whatever the override's hooks do, a created broadcast is saved as a draft |
| BroadcastsCollection.UpdateAllowed | src/collections/broadcasts/generateBroadcastsCollection.ts:192-196 | the collection's update access lets the API update a broadcast only while it is in `draft`; `BroadcastsCollection.StartedBroadcastIsLocked` shows a started broadcast is locked and a new one is not |
| BroadcastsCollection.ReadAllowed | src/collections/broadcasts/generateBroadcastsCollection.ts:191 | reading broadcasts requires a logged-in user |
| BroadcastsCollection.StartedBroadcastIsLocked | src/collections/broadcasts/generateBroadcastsCollection.ts:190-196 | once the send endpoint has started a broadcast, neither the document nor its name can be updated; a freshly created one can be; without a document the name cannot be updated |
| Slug.MatchSlug | src/fields/slug.ts:49 | the format expression as a left-to-right matcher; `Slug.MatchSlugIff` states the strings it accepts |
| Slug.MatchSlugIff | src/fields/slug.ts:49 | the format expression accepts exactly the non-empty strings of lower-case letters, digits and single inner hyphens, neither starting nor ending with a hyphen |
| Slug.MatchAfterAlnumIff | src/fields/slug.ts:49 | after a first letter or digit, the rest of the expression accepts exactly what may follow an alphanumeric character in such a slug |
| Slug.DropNonAlnum | src/fields/slug.ts:24 | a run of non-alphanumeric characters at the front is consumed entirely, leaving a suffix that starts with a letter or digit |
| Slug.ReplaceNonAlnumRuns | src/fields/slug.ts:24 | replacing each run of other characters by one hyphen leaves only slug characters and never two hyphens in a row, and keeps an alphanumeric first character |
| Slug.DropLeadingDashes | src/fields/slug.ts:25 | removing leading hyphens leaves a suffix that does not start with a hyphen |
| Slug.DropTrailingDashes | src/fields/slug.ts:25 | removing trailing hyphens leaves a prefix that does not end with a hyphen |
| Slug.SliceKeepsSlugChars | src/fields/slug.ts:23-25 | trimming the ends keeps a string of slug characters free of hyphen runs |
| Slug.SlugFromTitle | src/fields/slug.ts:21-26 | a slug generated from a title is empty or passes the field's format check |
| Slug.TrimmedSlugIsWellFormed | src/fields/slug.ts:25 | trimming the hyphens off both ends of a string of slug characters without hyphen runs leaves it empty or well formed |
| Slug.MapToSlugChars | src/fields/slug.ts:38 | every character outside `[a-z0-9-]` becomes a hyphen and every other one is kept, position by position |
| Slug.DropDashes | src/fields/slug.ts:38-39 | a suffix that does not start with a hyphen |
| Slug.CollapseDashes | src/fields/slug.ts:39 | collapsing hyphen runs leaves no two hyphens in a row, turns a string of slug characters into one, and keeps a first non-hyphen character |
| Slug.NormaliseSlug | src/fields/slug.ts:36-39 | a normalised value holds only slug characters and no hyphen run |
| Slug.CollapseFixesNoDoubleDash | src/fields/slug.ts:39 | collapsing leaves a string without hyphen runs unchanged |
| Slug.NormaliseIdempotent | src/fields/slug.ts:36-39 | normalising a normalised value changes nothing |
| Slug.NormaliseCanFailFormat | src/fields/slug.ts:36-49 | normalisation keeps a leading hyphen, so `" a"` becomes `-a`, which the format check rejects |
| Slug.SlugBeforeChange | src/fields/slug.ts:17-28 | a non-empty value is kept; an empty one with a non-empty title becomes the slug generated from the title |
| Slug.SlugBeforeValidate | src/fields/slug.ts:31-40 | an empty value on create is kept; a value is present after exactly when it was before, and then holds only slug characters without hyphen runs |
| Slug.ValidateSlug | src/fields/slug.ts:45-54 | a value passes exactly when it is absent, empty or well formed |
| ContactFields.Names | src/fields/contact-fields.ts:72 | the names are the definitions' names, in order |
| ContactFields.ToSet | src/fields/contact-fields.ts:75-92 | the set holds exactly the list's elements |
| ContactFields.SetSizeIffDistinct | src/fields/contact-fields.ts:92-95 | the set of a list is never larger than the list, and equally large exactly when no element repeats |
| ContactFields.ValidateContactFields | src/fields/contact-fields.ts:84-97 | a list passes exactly when it holds an `email` block and no block type twice; a missing `email` gives the email message and a repeat the duplicate message |
| ContactFields.FilterUnused | src/fields/contact-fields.ts:77 | the kept names are exactly the unused ones, in their original order |
| ContactFields.FilterOptions | src/fields/contact-fields.ts:71-78 | a definition name is offered exactly when no block uses it yet, and the offers keep the definitions' order |
| ContactFields.DefaultFieldListValid | src/fields/contact-fields.ts:64-97 | the default field list, one `email` block, passes validation |
| UnsubscribeToken.Generate | src/utils/unsubscribe-token.ts:41-59 | generation fails exactly when the secret is unset or empty |
| UnsubscribeToken.Verify | src/utils/unsubscribe-token.ts:90-123 | nothing verifies without a secret, and a verified token is never more than 30 days old |
| UnsubscribeToken.GeneratedTokenHasTwoParts | src/utils/unsubscribe-token.ts:52-58 | a generated token splits at `.` into exactly the encoded payload and its signature |
| UnsubscribeToken.VerifyGenerated | src/utils/unsubscribe-token.ts:41-123 | under the same secret, a generated token verifies to its own id and timestamp for 30 days and is rejected after that |
| UnsubscribeToken.VerifiedTokenIsSigned | src/utils/unsubscribe-token.ts:97-119 | every token that verifies is a payload, a `.` and the signature of that payload under the secret, and the payload decodes to the answer |
| UnsubscribeToken.VerifyRejectsMalformed | src/utils/unsubscribe-token.ts:97-110 | a token that is not two parts, or whose second part is not the first part's signature, is rejected |
| UnsubscribeTokens.ExpiresAtOnChange | src/collections/unsubscribe-tokens/generateUnsubscribeTokens.ts:36-44 | a date is present after a change exactly when it was before or the change is a create, and a given date is never replaced |
| UnsubscribeTokens.TokenData.BeforeChange | src/collections/unsubscribe-tokens/generateUnsubscribeTokens.ts:35-45 | the hook fills in the expiry date as above and leaves the id and the email link alone |
| UnsubscribeTokens.DefaultLifetimeIsTokenLifetime | src/collections/unsubscribe-tokens/generateUnsubscribeTokens.ts:37-41 | a record created without a date expires exactly one token lifetime after its creation; an update does not add a date |
| UnsubscribeTokens.TokenAndRecordExpireTogether | src/collections/unsubscribe-tokens/generateUnsubscribeTokens.ts:37-41 | a token and the record created with it at the same instant go stale at the same moment |
| SendEmailWorker.FindEmail | src/tasks/sendEmailTask.ts:24-39 | the lookup names the first Email record of the pair, and finds none exactly when no record belongs to the pair |
| SendEmailWorker.SendEmail | src/tasks/sendEmailTask.ts:52-152 | the handler leaves the store and the result the task's specification gives for the old store and the input |
| SendEmailWorker.WorkerWritesNothingEarly | src/tasks/sendEmailTask.ts:58-90 | a pair that already has an Email record succeeds without a write; an unknown contact or broadcast, or a missing secret, throws before any write |
| SendEmailWorker.QueuedRecord | src/tasks/sendEmailTask.ts:107-119 | the record created before the send is `queued`, with no provider id and no activity, for the broadcast and contact and to the contact's address |
| SendEmailWorker.MarkSent | src/tasks/sendEmailTask.ts:139-147 | the update after the send sets status `sent`, a single `sent` entry at the current time and the provider's id, and the status hook leaves it as written |
| SendEmailWorker.Deliver | src/tasks/sendEmailTask.ts:121-147 | a token id already stored throws with no write; otherwise the token record and the message are written, the run succeeds exactly when the transport accepts, and then only the record at the position changes, to `sent` with the provider's id and one `sent` entry |
| SendEmailWorker.DeliverTo | src/tasks/sendEmailTask.ts:121-147 | run against the store, the token write through the token collection's hook, the send and the update to `sent` leave the store and result that `SendEmailWorker.Deliver` states |
| SendEmailWorker.QueuedRecordIsQueued | src/tasks/sendEmailTask.ts:108-119 | the record created before the send is saved `queued`, exactly as built: the status hook changes nothing while there is no activity |
| SendEmailWorker.SentEntryKeepsSent | src/tasks/sendEmailTask.ts:139-147 | the update after the send, one `sent` entry and status `sent`, is saved exactly as built |
| SendEmailWorker.WorkerSendsOnce | src/tasks/sendEmailTask.ts:74-151 | an accepted send adds one `sent` Email record for the pair with the provider's id, one token record pointing at it that expires in 30 days, and one message with the pair's idempotency key; nothing else changes |
| SendEmailWorker.WorkerFailureIsTrackable | src/tasks/sendEmailTask.ts:107-137 | a rejected send throws but leaves the `queued` record without a provider id, its token record and the handed-over message |
| SendEmailWorker.WorkerLinksTokenToEmail | src/tasks/sendEmailTask.ts:89-124 | the token in the rendered email verifies for 30 days to a token record that points at the new Email record, which went to the contact's address |
| SendEmailWorker.IdempotencyKeyShape | src/tasks/sendEmailTask.ts:129 | the key is `broadcast-`, the broadcast id's digits, `-contact-` and the contact id's digits |
| SendEmailWorker.IdempotencyKeyInjective | src/tasks/sendEmailTask.ts:129 | two pairs with the same idempotency key are the same pair |
| SendEmailWorker.WorkerRetryIsNoOp | src/tasks/sendEmailTask.ts:58-72 | after a run that wrote anything, a retry of the same job succeeds without writing, whatever the clock, token or transport |
| SendEmailWorker.AppendKeepsOnePerPair | src/tasks/sendEmailTask.ts:58-119 | adding a record for a pair that has none keeps at most one record per pair |
| SendEmailWorker.AppendNextEmailIncreasing | src/tasks/sendEmailTask.ts:108-119 | a record created with the next id keeps the email ids increasing |
| SendEmailWorker.FindAppendedEmail | src/tasks/sendEmailTask.ts:139-141 | the record just created is found by its id at the end of the list |
| SendEmailWorker.WorkerKeepsInvariants | src/tasks/sendEmailTask.ts:52-152 | a run keeps every id list increasing and at most one Email record per pair |
| Store.FindContactByEmail | src/collections/form-submissions/hooks/processFormSubmission.ts:84-93 | the query names the lowest-id contact whose `email` is the address (the source gives no sort), and finds none exactly when no contact has it |
| Store.FindId | src/tasks/sendEmailTask.ts:74-84 | `findByID` finds the first document with the id, and none exactly when no document has it |
| Store.FindIdOfIncreasing | src/tasks/sendEmailTask.ts:74-84 | with unique, ordered ids the document at a position is found at that position |
| Store.FindIdAppendFresh | src/tasks/sendEmailTask.ts:108-119 | a document created under a fresh id is found at the end |
| Store.NextId | src/tasks/sendEmailTask.ts:108-119 | a created document's id is positive and larger than every id in the collection |
| Store.NextIdFresh | src/tasks/sendEmailTask.ts:108-119 | a created document's id is not taken |
| Store.AppendNextIdIncreasing | src/tasks/sendEmailTask.ts:108-119 | creating a document keeps the collection's ids ordered |
| ResendAdapter.RequestHeaders | src/adapters/resend-adapter.ts:46-53 | the request carries the bearer key and the JSON content type, and an `Idempotency-Key` exactly when a non-empty key was given, with that key; no other header |
| ResendAdapter.BuildRequestHeaders | src/adapters/resend-adapter.ts:46-53 | the dictionary built step by step is exactly those headers |
| ResendAdapter.SenderOf | src/adapters/resend-adapter.ts:276-277 | the message's own sender wins when non-empty; otherwise the default address, formatted with the default name when there is one |
| ResendAdapter.SendRequest | src/adapters/resend-adapter.ts:55-64 | one POST to the emails endpoint, with the sender, html, subject and recipient as body and the headers above |
| ResendAdapter.SendOutcomeOf | src/adapters/resend-adapter.ts:66-73 | the send succeeds exactly when the answer is `ok` and its JSON has an `id`, and the provider id is that `id` |
| ResendAdapter.IdempotencyHeaderPerPair | src/adapters/resend-adapter.ts:51-53 | two sends of the same (broadcast, contact) pair carry the same `Idempotency-Key` header |
| ResendAdapter.TimestampAccepted | src/adapters/resend-adapter.ts:94-101 | as intended, an accepted timestamp is a number and is also accepted as written |
| ResendAdapter.TimestampWindow | src/adapters/resend-adapter.ts:94-101 | a timestamp of decimal seconds is accepted by both versions alike, exactly when it is within five minutes of the clock |
| ResendAdapter.NonNumericTimestampPasses | src/adapters/resend-adapter.ts:94-101 | as written, a timestamp without digits passes whatever the clock says; as intended it is rejected |
| ResendAdapter.SigningSecret | src/adapters/resend-adapter.ts:112-113 | the HMAC key never contains `_` |
| ResendAdapter.SigningSecretOf | src/adapters/resend-adapter.ts:111-113 | a `whsec_` secret is keyed by what follows the prefix, and a secret without `_` by itself |
| ResendAdapter.AnyEntryMatches | src/adapters/resend-adapter.ts:126-136 | the header matches exactly when one of its entries does |
| ResendAdapter.V1EntryMatches | src/adapters/resend-adapter.ts:121-132 | a `v1` entry carrying the expected signature matches |
| ResendAdapter.OtherVersionNeverMatches | src/adapters/resend-adapter.ts:127-129 | the expected signature under any other version never matches |
| ResendAdapter.SignatureOfEntries | src/adapters/resend-adapter.ts:119-137 | a space-separated list whose last entry matches is accepted |
| ResendAdapter.NoSpaceAppend | src/adapters/resend-adapter.ts:121 | entries without spaces stay so when one more is added |
| ResendAdapter.SignatureWithMatchingEntry | src/adapters/resend-adapter.ts:119-137 | a matching entry is accepted next to any other entries, as during a secret rotation |
| ResendAdapter.V1EntryHasNoSpace | src/adapters/resend-adapter.ts:121-122 | a `v1` entry holds no space when its signature holds none |
| ResendAdapter.SignatureV2Rejected | src/adapters/resend-adapter.ts:127-129 | the right signature under `v2` alone is rejected |
| ResendAdapter.VerifyWebhook | src/adapters/resend-adapter.ts:139-169 | (intended, with the corrected timestamp check of Findings) an accepted request has all three Svix headers, a timestamp in the window, a non-empty body and a matching signature over `id.timestamp.body`, and yields that body parsed |
| ResendAdapter.SignedEventIsAccepted | src/adapters/resend-adapter.ts:139-169 | an event signed `v1` with the shared secret and sent within five minutes is accepted and read |
| ResendAdapter.EventOfActivity | src/adapters/resend-adapter.ts:29-39 | each of the nine provider activity types has its `email.` event |
| ResendAdapter.WebhookEventToActivity | src/adapters/resend-adapter.ts:29-39 | only `email.` events map to an activity type, and never to `unsubscribed`; `ResendAdapter.ActivityOfEvent` and `ResendAdapter.EventOfActivity` make the map a bijection onto the nine provider types |
| ResendAdapter.HandleWebhookEvent | src/adapters/resend-adapter.ts:209-229 | only the emails may change and none is added or removed; a throw writes nothing; an email that changes had the event's provider id and gained exactly one entry, of the event's type, at the end of its log |
| ResendAdapter.ActivityOfEvent | src/adapters/resend-adapter.ts:29-39 | an event maps to a type only if it is that type's event, and never to `unsubscribed` |
| ResendAdapter.FindByProviderId | src/adapters/resend-adapter.ts:171-184 | the lookup names the lowest-id email with the provider id (the source gives no sort), and finds none exactly when no email has it |
| ResendAdapter.RecordActivity | src/adapters/resend-adapter.ts:186-207 | the saved log is the old log plus one entry stamped now, and only the log and the status change |
| ResendAdapter.ResendWebhook | src/adapters/resend-adapter.ts:291-312 | the handler leaves the store and the result the webhook's (intended) specification gives for the old store and the request |
| ResendAdapter.WebhookAppendsOneEntry | src/adapters/resend-adapter.ts:186-242 | the webhook writes at most one email: its log gains exactly one accepted entry stamped now and its status is the log's most significant one (or kept); ids and every other collection are kept |
| ResendAdapter.SyncStatusIsMostSignificantOrKept | src/collections/emails/hooks/sync-status-from-activity.ts:69-86 | after the status hook, the status is the log's most significant one, or the old one when no entry carries a status |
| ResendAdapter.WebhookRecordsKnownEvents | src/adapters/resend-adapter.ts:209-312 | an authenticated event for a known email is appended to its log, except `delivery_delayed`, `failed` and `received`, which the activity select rejects, so the update throws and nothing is written |
| ResendAdapter.WebhookWritesNothingOtherwise | src/adapters/resend-adapter.ts:215-303 | nothing is written when authentication fails (a throw), when the event has no `email_id`, when its type is not one of the nine, or when no email has its provider id |
| Request.FindByJsonId | src/endpoints/sendBroadcastHandler.ts:32-45 | a non-negative number, or a string of decimal digits, names the document with that id, and is found exactly when that id is stored; any other value finds nothing |
| Request.JsonIdOfDecimalString | src/endpoints/sendBroadcastHandler.ts:24-45 | a body id sent as the string `"5"` names the same document as the number `5` |
| EmailWebhookEndpoint.EmailWebhookResponse | src/endpoints/emailWebhookHandler.ts:17-45 | the envelope fails only when the adapter has no webhook handler (501); any throw is acknowledged 200 with `processed: false`; no result gives `{ received: true }` with 200; a result's own body and status are passed on |
| EmailWebhookEndpoint.ResendWebhookAlwaysAcknowledged | src/endpoints/emailWebhookHandler.ts:21-44 | with the Resend adapter (intended timestamp check) every request is answered 200 with a success envelope, `processed: false` marks exactly the requests the adapter rejected, and those wrote nothing |
| SendBroadcastEndpoint.ValidateRequestBody | src/endpoints/sendBroadcastHandler.ts:19-26 | a body passes exactly when its `broadcastId` is truthy, and then carries that id |
| SendBroadcastEndpoint.CountTagIds | src/endpoints/sendBroadcastHandler.ts:51-62 | the count has a tag condition exactly when the broadcast targets a non-empty tag list |
| SendBroadcastEndpoint.CountAudience | src/endpoints/sendBroadcastHandler.ts:113-118 | the audience is never more than the contacts |
| SendBroadcastEndpoint.SendBroadcast | src/endpoints/sendBroadcastHandler.ts:71-141 | the handler leaves the store and the response the endpoint's specification gives for the old store and the request |
| SendBroadcastEndpoint.SendBroadcastRejections | src/endpoints/sendBroadcastHandler.ts:76-91 | no body reader gives 400 before the user is checked, no user 401, a falsy `broadcastId` 400, and only the 200 answer writes |
| SendBroadcastEndpoint.SendBroadcastNeedsDraft | src/endpoints/sendBroadcastHandler.ts:95-111 | an unknown broadcast gives 404 and a broadcast that is not a draft 400 `VALIDATION_ERROR`, without a write |
| SendBroadcastEndpoint.SendBroadcastStarts | src/endpoints/sendBroadcastHandler.ts:113-135 | a 200 answer writes exactly one draft broadcast: `sending`, its count the audience size, both progress counters 0 |
| SendBroadcastEndpoint.CountIsDispatchAudience | src/endpoints/sendBroadcastHandler.ts:51-62 | the counted audience has the dispatcher's tag condition and is exactly the set of contacts the dispatcher's query matches from cursor 0 |
| SendBroadcastEndpoint.SendBroadcastKeepsInvariants | src/endpoints/sendBroadcastHandler.ts:120-131 | the request keeps the ids and the dispatch invariant, and a broadcast it starts is covered from the start |
| SendBroadcastEndpoint.StartKeepsInvariants | src/endpoints/sendBroadcastHandler.ts:120-131 | starting a draft keeps the ids and the dispatch invariant, and the started broadcast is covered |
| Dispatcher.BatchSize | src/tasks/sendBroadcastsTask.ts:91 | the batch is at least one contact: the configured size when it is set and non-zero, else 100 |
| Dispatcher.EmailQueueName | src/tasks/sendBroadcastsTask.ts:94 | the queue name is never empty: the configured one when non-empty, else `send-emails` |
| Dispatcher.TagIds | src/tasks/sendBroadcastsTask.ts:66-68 | each tag reference becomes its id, populated or raw, position by position |
| Dispatcher.BuildContactsWhere | src/tasks/sendBroadcastsTask.ts:55-73 | the query's cursor is the broadcast's last processed contact id, and it has a tag condition exactly when the broadcast targets a non-empty tag list, with those tags' ids |
| Dispatcher.SharesTagIff | src/tasks/sendBroadcastsTask.ts:69 | a contact meets `tags in` exactly when one of its tags is among the wanted ones |
| Dispatcher.ConsistentSorted | src/tasks/sendBroadcastsTask.ts:137 | the contacts of a consistent store are in id order |
| Dispatcher.Select | src/tasks/sendBroadcastsTask.ts:134-139 | the query returns exactly the matching contacts, in id order |
| Dispatcher.SelectEmptyIff | src/tasks/sendBroadcastsTask.ts:134-141 | the query returns nothing exactly when no contact matches |
| Dispatcher.JobsFor | src/tasks/sendBroadcastsTask.ts:154-162 | one `send-email` job per contact of the page, in order, on the email queue, for the broadcast |
| Dispatcher.FirstSending | src/tasks/sendBroadcastsTask.ts:102-109 | the run takes the lowest-positioned broadcast in `sending`, and finds none exactly when none is sending |
| Dispatcher.RunSendBroadcasts | src/tasks/sendBroadcastsTask.ts:98-181 | the handler leaves the store and the success flag one run of the task's specification gives |
| Dispatcher.PageFacts | src/tasks/sendBroadcastsTask.ts:134-139 | a page has at most `limit` matching contacts in id order, is empty exactly when nothing matches, and holds every match up to its last id |
| Dispatcher.PollWithoutSendingIsIdle | src/tasks/sendBroadcastsTask.ts:109-114 | with no broadcast in `sending`, a run succeeds and writes nothing |
| Dispatcher.SchemaAccepts | src/tasks/sendBroadcastsTask.ts:10-25 | the broadcast schema: content present, sender address accepted by the email check, sender name and subject non-empty, meta counters non-negative, `to` either `all` or `tags`; `Dispatcher.PollRejectsInvalidBroadcast` states what a rejection does |
| Dispatcher.PollRejectsInvalidBroadcast | src/tasks/sendBroadcastsTask.ts:116-126 | a broadcast the schema rejects is marked `failed`, the run reports failure, and nothing else changes |
| Dispatcher.PollCompletesBroadcast | src/tasks/sendBroadcastsTask.ts:141-152 | when nothing matches after the cursor, the broadcast is marked `sent`, and nothing else changes |
| Dispatcher.PollQueuesWhenMatching | src/tasks/sendBroadcastsTask.ts:134-180 | when some contact matches, the run queues a non-empty page and advances the cursor |
| Dispatcher.EnqueuedJobs | src/tasks/sendBroadcastsTask.ts:154-162 | a run adds between one and a batch of jobs after the existing ones, each a `send-email` job on the email queue for the broadcast and a matching contact |
| Dispatcher.PageJobs | src/tasks/sendBroadcastsTask.ts:154-162 | queuing any page of matches adds one job per contact, each for the broadcast and a matching contact |
| Dispatcher.EnqueuedAdvancesCursor | src/tasks/sendBroadcastsTask.ts:164-173 | only that broadcast changes: its cursor moves strictly forward to the last queued contact, `processedCount` grows by the number of jobs, `contactsCount` is kept |
| Dispatcher.JobContactIds | src/tasks/sendBroadcastsTask.ts:154-162 | a contact id is among a broadcast's queued contacts exactly when some queued job for that broadcast carries it |
| Dispatcher.JobContactIdsAppend | src/tasks/sendBroadcastsTask.ts:154-162 | the contacts queued for a broadcast over two job lists are those of the first followed by those of the second |
| Dispatcher.JobsForContactIds | src/tasks/sendBroadcastsTask.ts:154-162 | a page's jobs queue exactly the page's contacts for its broadcast and none for any other |
| Dispatcher.EnqueuedKeepsDispatchInvariant | src/tasks/sendBroadcastsTask.ts:154-173 | queuing a page past the cursor in id order keeps drafts without jobs and each sending broadcast's queued ids increasing and not past its cursor |
| Dispatcher.PollKeepsDispatchInvariant | src/tasks/sendBroadcastsTask.ts:98-181 | every run keeps the ids and the dispatch invariant, so no contact is queued twice for a broadcast |
| Dispatcher.WithStatusKeeps | src/tasks/sendBroadcastsTask.ts:120-150 | marking a broadcast `failed` or `sent` keeps the ids and the dispatch invariant |
| Dispatcher.EnqueuedKeepsConsistent | src/tasks/sendBroadcastsTask.ts:154-173 | queuing a page keeps the ids |
| Dispatcher.EnqueuedCoverage | src/tasks/sendBroadcastsTask.ts:134-173 | queuing the next page of a covered broadcast keeps it covered, and the next query matches strictly fewer contacts |
| Dispatcher.PageCovered | src/tasks/sendBroadcastsTask.ts:154-173 | a page holding every match up to its last id moves coverage to that id |
| Dispatcher.PageShrinksRemaining | src/tasks/sendBroadcastsTask.ts:164-173 | after a non-empty page, strictly fewer contacts match the next query |
| Dispatcher.CompletedCoverage | src/tasks/sendBroadcastsTask.ts:141-152 | when nothing is left to match, the jobs queued for a covered broadcast are its whole audience |
| Dispatcher.PollCoverage | src/tasks/sendBroadcastsTask.ts:98-181 | a run keeps a covered broadcast covered and strictly shrinks what is left while it is sending; when it is marked `sent`, its whole audience has been queued |
| Dispatcher.Clamp | src/tasks/sendBroadcastsTask.ts:136 | the page offset is the position past the cursor, limited to the list's bounds |
| Dispatcher.SelectConsecutive | src/tasks/sendBroadcastsTask.ts:59-62 | without a tag condition, on consecutive opted-in ids, the query matches exactly the contacts after the cursor |
| Dispatcher.PollOnConsecutive | src/tasks/sendBroadcastsTask.ts:98-181 | on consecutive opted-in contacts a run moves the cursor to the smaller of cursor plus batch and the contact count, growing `processedCount` by the difference, and at the end marks the broadcast `sent` |
| Dispatcher.TwoHundredFiftyContactsTakeFourRuns | src/tasks/sendBroadcastsTask.ts:91-181 | 250 opted-in contacts and the default batch: the cursor goes 100, 200, 250 and the fourth run marks the broadcast `sent` |
| UnsubscribeEndpoint.ValidateToken | src/endpoints/unsubscribeHandler.ts:12-14 | a token passes exactly when it is a non-empty string, and then is that string |
| UnsubscribeEndpoint.IsTokenExpired | src/endpoints/unsubscribeHandler.ts:16-18 | a token is expired only once its date is strictly before now, so it is still valid at the date itself |
| UnsubscribeEndpoint.OptOut | src/endpoints/unsubscribeHandler.ts:63-71 | the contact keeps its id, tags and every field but `emailOptIn`, which becomes false |
| UnsubscribeEndpoint.Unsubscribe | src/endpoints/unsubscribeHandler.ts:73-154 | the handler leaves the store and the response the endpoint's specification gives for the old store, the request, the secret and the clock |
| UnsubscribeEndpoint.UnsubscribeRejections | src/endpoints/unsubscribeHandler.ts:80-97 | no body reader gives 400 `BAD_REQUEST`, a token that is not a non-empty string 400 `VALIDATION_ERROR`, a token that fails verification 400 `TOKEN_INVALID`; a response that wrote is always 200 "Successfully unsubscribed" |
| UnsubscribeEndpoint.UnsubscribeChecksRecordExpiry | src/endpoints/unsubscribeHandler.ts:108-111 | a record whose date is past gives 400 `TOKEN_EXPIRED` even for a token that still verifies; a record without a date never does |
| UnsubscribeEndpoint.UnsubscribeOnlyOptsOut | src/endpoints/unsubscribeHandler.ts:119-148 | the only write is the opt-out of the first contact with the address the email went to, which was not already opted out |
| UnsubscribeEndpoint.FindContactAfterOptOut | src/endpoints/unsubscribeHandler.ts:51-71 | opting a contact out keeps every address, so the same address finds the same contact |
| UnsubscribeEndpoint.UnsubscribeIdempotent | src/endpoints/unsubscribeHandler.ts:137-141 | repeating a request that succeeded writes nothing and answers "Already unsubscribed" |
| UnsubscribeEndpoint.FindsAddressOf | src/endpoints/unsubscribeHandler.ts:51-61 | looking up a contact's own address finds that contact or an earlier one with the same address |
| UnsubscribeEndpoint.UnsubscribeSucceeds | src/endpoints/unsubscribeHandler.ts:93-148 | a verified token whose record is not expired and names an email whose address a contact has answers 200 and leaves that contact opted out |
| UnsubscribeEndpoint.UnsubscribeAfterSend | src/endpoints/unsubscribeHandler.ts:93-148 | a token posted within its 30 days, for the record pointing at the email just created, opts out the first contact with the recipient's address |
| UnsubscribeEndpoint.SentEmailCanBeUnsubscribed | src/endpoints/unsubscribeHandler.ts:73-154 | for 30 days after the send-email task recorded an email, posting its token answers 200 and opts out the first contact with the recipient's address |
| SendTestBroadcastEndpoint.ValidateTestRequest | src/endpoints/sendTestBroadcastHandler.ts:30-54 | a body passes exactly when `broadcastId` is a number, whole or fractional, and `testEmail` a non-empty string containing `@`; every rejection is a `VALIDATION_ERROR` |
| SendTestBroadcastEndpoint.ValidateBroadcastFields | src/endpoints/sendTestBroadcastHandler.ts:59-95 | a broadcast passes exactly when it has content, a sender name, a sender address and a subject; every rejection is a `VALIDATION_ERROR` |
| SendTestBroadcastEndpoint.SendTestBroadcast | src/endpoints/sendTestBroadcastHandler.ts:163-192 | the handler leaves the store and the response the endpoint's (intended) specification gives for the old store and the request |
| SendTestBroadcastEndpoint.TestMessage | src/endpoints/sendTestBroadcastHandler.ts:129-149 | the test message goes to the test address with the broadcast's subject and no idempotency key, rendered with an empty unsubscribe token |
| SendTestBroadcastEndpoint.TestSendWritesOnlyOutbox | src/endpoints/sendTestBroadcastHandler.ts:101-154 | a test send writes no record; at most one message is handed over, to the test address, from the broadcast's formatted sender, with its subject, no idempotency key and no unsubscribe token |
| SendTestBroadcastEndpoint.TestSendSucceedsIff | src/endpoints/sendTestBroadcastHandler.ts:101-192 | the answer is 200 exactly when the request is well formed and from a logged-in user, names a broadcast with content, sender and subject, and the transport accepts the message |
| SendTestBroadcastEndpoint.TestSendRejections | src/endpoints/sendTestBroadcastHandler.ts:170-184 | no body reader gives 400, no user 401, a non-number id 400, an address without `@` 400, each without a write |
| SendTestBroadcastEndpoint.MissingBroadcastIsInternalError | src/endpoints/sendTestBroadcastHandler.ts:110-190 | as written, a well-formed request for a missing broadcast answers 500 `INTERNAL_ERROR`, because `findByID` throws; as intended it answers 404 `BROADCAST_NOT_FOUND` |
| SendTestBroadcastEndpoint.FractionalBroadcastIdIsNotFound | src/endpoints/sendTestBroadcastHandler.ts:30-54 | a fractional `broadcastId` passes the number check and finds no broadcast: 500 as written, 404 as intended, with no write |
| SendTestBroadcastEndpoint.VersionsAgreeOnFoundBroadcasts | src/endpoints/sendTestBroadcastHandler.ts:110-118 | the two versions give the same answer whenever the broadcast exists |
| FormSubmissionProcessing.ContactFieldMapIsFieldNames | src/collections/form-submissions/hooks/processFormSubmission.ts:8-20 | the keys copied onto a contact are exactly the contact-field definitions' names, in the same order |
| FormSubmissionProcessing.ContactDataSnoc | src/collections/form-submissions/hooks/processFormSubmission.ts:32-36 | one more key on the list adds that key exactly when the submission has it, with the submission's value |
| FormSubmissionProcessing.ExtractContactData | src/collections/form-submissions/hooks/processFormSubmission.ts:27-39 | the loop builds exactly the submission's entries for the mapped keys |
| FormSubmissionProcessing.ContactDataIsSubmissionSlice | src/collections/form-submissions/hooks/processFormSubmission.ts:27-39 | a key is extracted exactly when it is mapped and present in the submission, and keeps the submission's value |
| FormSubmissionProcessing.UpdateData | src/collections/form-submissions/hooks/processFormSubmission.ts:99-105 | the update holds exactly the extracted entries that are not undefined, null or empty, with their values |
| FormSubmissionProcessing.NonBlankEntries | src/collections/form-submissions/hooks/processFormSubmission.ts:99-105 | the loop over the entries builds exactly that update |
| FormSubmissionProcessing.NewContactFields | src/collections/form-submissions/hooks/processFormSubmission.ts:115-120 | a created contact holds every extracted value, and is not opted in to email or SMS unless the submission says so |
| FormSubmissionProcessing.NewTags | src/collections/form-submissions/hooks/processFormSubmission.ts:160-163 | the new tags are exactly the form's tags the contact lacks, and none when it has them all |
| FormSubmissionProcessing.ApplyFormTags | src/collections/form-submissions/hooks/processFormSubmission.ts:142-180 | applying the form's tags keeps the contact's id and fields |
| FormSubmissionProcessing.ApplyFormTagsMerges | src/collections/form-submissions/hooks/processFormSubmission.ts:165-174 | the contact's own tags stay in front and the result holds exactly its tags and the form's |
| FormSubmissionProcessing.ApplyFormTagsIdempotent | src/collections/form-submissions/hooks/processFormSubmission.ts:160-179 | applying the same form's tags a second time writes nothing |
| FormSubmissionProcessing.TagAndLink | src/collections/form-submissions/hooks/processFormSubmission.ts:126-191 | after the contact write only contacts' tags can change, and the document is returned unchanged or linked to the contact |
| FormSubmissionProcessing.ProcessFormSubmission | src/collections/form-submissions/hooks/processFormSubmission.ts:55-192 | the hook leaves the store and the document the hook's specification gives for the old store and the document |
| FormSubmissionProcessing.ProcessWritesOnlyContacts | src/collections/form-submissions/hooks/processFormSubmission.ts:55-192 | the hook writes nothing but contacts, adds at most one, and changes nothing of the document but its contact link |
| FormSubmissionProcessing.ProcessSkipsWithoutEmail | src/collections/form-submissions/hooks/processFormSubmission.ts:57-78 | an update, a submission without data, or one without a non-empty string email is returned untouched, and nothing is written |
| FormSubmissionProcessing.UpsertContact | src/collections/form-submissions/hooks/processFormSubmission.ts:84-123 | only the contacts change; when a contact has the address, the lowest-id one keeps its id and tags and is reported, and no other contact changes; otherwise one contact is appended, with no tags, under the reported id |
| FormSubmissionProcessing.UpsertContactHasAddress | src/collections/form-submissions/hooks/processFormSubmission.ts:85-124 | the contact found or created carries the submitted address and the id the hook reports |
| FormSubmissionProcessing.ProcessLinksToContactWithEmail | src/collections/form-submissions/hooks/processFormSubmission.ts:80-186 | a submission with an email always leaves a contact with that address, and a linked submission is linked to such a contact |
| FormSubmissionProcessing.ProcessLinksIff | src/collections/form-submissions/hooks/processFormSubmission.ts:55-191 | an unlinked submission becomes linked exactly when it is a create with a non-empty string email and a form id that names a stored form |
| FormSubmissionProcessing.ExistingContactMerge | src/collections/form-submissions/hooks/processFormSubmission.ts:97-114 | an existing contact keeps its id, its tags and every field the submission leaves blank, and takes every non-blank mapped value |
| FormSubmissionProcessing.NewContactNotOptedIn | src/collections/form-submissions/hooks/processFormSubmission.ts:115-124 | a created contact is one more contact, and is not opted in to email when the submission gives no `emailOptIn` |
| FormSubmissionProcessing.FindContactByEmailReadsFields | src/collections/form-submissions/hooks/processFormSubmission.ts:85-89 | the lookup by address depends on the contacts' fields only, not on their tags |
| FormSubmissionProcessing.MergeHeld | src/collections/form-submissions/hooks/processFormSubmission.ts:107-111 | merging values a contact already holds changes nothing |
| FormSubmissionProcessing.UpsertedContactHoldsUpdate | src/collections/form-submissions/hooks/processFormSubmission.ts:85-124 | after the write, the contact written is the first with the address and holds the update |
| FormSubmissionProcessing.UpsertAgain | src/collections/form-submissions/hooks/processFormSubmission.ts:85-124 | a second write of the same data, even after tags changed, finds the same contact and writes nothing |
| FormSubmissionProcessing.TagAndLinkIdempotent | src/collections/form-submissions/hooks/processFormSubmission.ts:126-186 | looking up the form and applying its tags a second time changes nothing |
| FormSubmissionProcessing.ProcessIsIdempotent | src/collections/form-submissions/hooks/processFormSubmission.ts:55-192 | running the hook twice on the same document is running it once: same store, same returned document |
| FormSubmissionProcessing.UpsertKeepsContactIds | src/collections/form-submissions/hooks/processFormSubmission.ts:97-124 | the contact write keeps contact ids positive and increasing |
| FormSubmissionProcessing.ProcessKeepsContactIds | src/collections/form-submissions/hooks/processFormSubmission.ts:55-192 | the hook keeps contact ids positive and increasing |
| FormAutoresponse.Decide | src/collections/form-submissions/hooks/sendAutoresponse.ts:41-114 | a reply is sent only for a stored form with its autoresponse enabled and a subject, content, sender name and sender address, to a linked stored contact with a non-empty address |
| FormAutoresponse.Reply | src/collections/form-submissions/hooks/sendAutoresponse.ts:116-144 | the reply goes to the contact with the form's subject, from the formatted sender, without an idempotency key, rendered without an unsubscribe token |
| FormAutoresponse.SendAutoresponse | src/collections/form-submissions/hooks/sendAutoresponse.ts:41-152 | the hook returns the document unchanged and leaves the store the hook's specification gives |
| FormAutoresponse.AutoresponseSendsAtMostOne | src/collections/form-submissions/hooks/sendAutoresponse.ts:116-152 | the hook writes nothing but the outbox, and adds at most one message at its end |
| FormAutoresponse.AutoresponseSentWhenComplete | src/collections/form-submissions/hooks/sendAutoresponse.ts:41-144 | a create for a stored form with a complete, enabled autoresponse, linked to a stored contact with an address, is answered to that address with that form's autoresponse |
| FormSubmissionEndpoint.RequiredErrors | src/endpoints/formSubmissionHandler.ts:49-56 | there is at most one error per block, and none exactly when every required block's value is present and not blank |
| FormSubmissionEndpoint.SubmissionErrors | src/endpoints/formSubmissionHandler.ts:39-70 | a submission is valid exactly when the form has no contact fields, or every required field is filled and a non-empty string `email` has the address shape |
| FormSubmissionEndpoint.ValidateSubmissionData | src/endpoints/formSubmissionHandler.ts:39-70 | the loop collects exactly those errors, and `valid` holds exactly when there are none |
| FormSubmissionEndpoint.JoinWith | src/endpoints/formSubmissionHandler.ts:178 | joining no errors gives the empty message; otherwise the message is the errors' lengths plus one separator between each two, and ends with the last error |
| FormSubmissionEndpoint.ParseBody | src/endpoints/formSubmissionHandler.ts:12-15 | a body passes exactly when its `data` is an object and its `formId` a string or a number, whole or fractional, and then yields those two |
| FormSubmissionEndpoint.PublishedForm | src/endpoints/formSubmissionHandler.ts:75-99 | a form is found only when it is stored, published and named by its id, sent as a number or a decimal string |
| FormSubmissionEndpoint.FractionalFormIdIsNotFound | src/endpoints/formSubmissionHandler.ts:12-99 | a fractional `formId` passes the body schema and finds no form, so the answer is 404 with no write |
| FormSubmissionEndpoint.BuildConfirmation | src/endpoints/formSubmissionHandler.ts:104-127 | a redirect exactly when the form asks for one, has a reference, and has a URL or a referenced slug; the URL wins, else `/` and the slug; otherwise the form's message, or the default one when it is blank |
| FormSubmissionEndpoint.FormSubmission | src/endpoints/formSubmissionHandler.ts:140-212 | the handler leaves the store and the response the endpoint's specification gives for the old store and the request |
| FormSubmissionEndpoint.CreateSubmissionAppendsOne | src/endpoints/formSubmissionHandler.ts:183-191 | the creation appends one submission for the form and data under a fresh id, keeps the ids ordered, leaves broadcasts, emails, tokens, jobs and forms alone and adds at most one message |
| FormSubmissionEndpoint.SubmitterLinked | src/endpoints/formSubmissionHandler.ts:181-191 | a submission with an email to a stored form is saved linked to a contact with that address |
| FormSubmissionEndpoint.AutoresponseReachesSubmitter | src/endpoints/formSubmissionHandler.ts:181-191 | when the form's autoresponse is enabled and complete, a submission with an email adds exactly one message: the form's reply to that address |
| FormSubmissionEndpoint.RejectedSubmissionWritesNothing | src/endpoints/formSubmissionHandler.ts:150-179 | a request that is not answered 201 writes nothing |
| FormSubmissionEndpoint.AcceptedSubmission | src/endpoints/formSubmissionHandler.ts:158-202 | a 201 answer names a published form by its id and data that passes validation; one submission with that form and data is appended, and the response carries its id |
| CollectionHooks.UserHookList | src/collections/broadcasts/generateBroadcastsCollection.ts:228 | an override list of `n` hooks holds hook 0 to hook `n - 1`, in order |
| Strings.Split | src/utils/unsubscribe-token.ts:97 | splitting always yields at least one piece, and no piece holds the separator |
| Strings.SplitJoin | src/utils/unsubscribe-token.ts:58-97 | splitting pieces joined by the separator gives the pieces back when none holds it |
| Strings.JoinSplit | src/utils/unsubscribe-token.ts:97-102 | joining the pieces of a split gives the string back |
| Strings.Lower | src/fields/slug.ts:23-37 | lower-casing keeps the length and lower-cases each character in place |
| Strings.ParseIntOfNatToString | src/adapters/resend-adapter.ts:95 | `parseInt` reads a printed non-negative number back as that number |
| Strings.NatToStringInjective | src/tasks/sendEmailTask.ts:129 | two numbers with the same printed form are equal |

## Left out

- Network I/O: the HTTP call to the provider, and reading its status and body, are parameters: the HTTP answer is `ResendAdapter.HttpResponse`, and what the worker sees of a send is a `SendEmailWorker.SendOutcome`; the React client helpers are not modelled.
- HMAC-SHA256, base64url, random ids and `JSON.stringify`/`JSON.parse` are function parameters. The token and webhook lemmas require predicates stating the round trips the code relies on.
- The Payload database and job queue are in-memory sequences ordered by id. Relationship depth (populated documents) is not modelled: relations are ids, except form and broadcast tags, which are read either way (`Dispatcher.TagIds`). The unsubscribe lines below name where this matters.
- `Promise.all` parallelism, and races between overlapping task runs or webhook deliveries, are not modelled: each handler runs atomically on the store.
- The clock is the `now` parameter (milliseconds).
- The zod email check is an `isEmail` parameter. Lexical rendering and the `render` callbacks are opaque parameters.
- `toLowerCase`, `trim` and `\s` cover ASCII only; Unicode case mapping and whitespace are not modelled.
- The admin UI (.tsx components, including `roundToTwo`) and all logging are not modelled.
- The schema-only collections (forms, pages, contacts, tags, form submissions) and the status, name and publishedAt field builders are not modelled beyond the fields the handlers read.
- Collection access overrides passed in plugin options are not modelled. Neither is the unsubscribe-token collection's access, which refuses every operation (src/collections/unsubscribe-tokens/generateUnsubscribeTokens.ts:24-29): the plugin writes it through the local API, which skips access.
- Field validation of the contacts collection is not modelled: the required `email` (src/collections/contacts/generateContactsCollection.ts:57-59, which has no unique constraint, so two contacts may share an address), the `country` select and its fixed options (src/collections/contacts/generateContactsCollection.ts:107-109), and the checkbox opt-ins. In the source a contact the collection rejects makes the hook's `payload.create`/`payload.update` throw. The hook's catch (src/collections/form-submissions/hooks/processFormSubmission.ts:187-190) swallows the error and saves the submission unlinked, with no contact written, and the autoresponse hook then sends nothing (src/collections/form-submissions/hooks/sendAutoresponse.ts:79-82). An example is `{"email": "a@b.co", "country": "Narnia"}` to a form whose contact fields include `country`. The model treats every contact write as accepted, so the members below are stated only for contacts the collection accepts.
- FormSubmissionProcessing.UpsertContact: always merges into or appends a contact. A write the contacts collection rejects, which the source's hook catches with nothing written, is not modelled.
- FormSubmissionProcessing.ProcessFormSubmission: its specification has no rejected-contact branch. Where the source's catch returns the data unlinked and writes no contact, the model writes the contact and links it.
- FormSubmissionProcessing.ProcessLinksIff: "linked exactly when there is an email and the form is stored" holds only for contacts the collection accepts. A rejected contact leaves the source's submission unlinked.
- FormSubmissionProcessing.ProcessLinksToContactWithEmail: the contact it promises exists only when the collection accepts the write.
- FormSubmissionEndpoint.FormSubmission: the store it leaves differs from the source's for a rejected contact. The source saves the submission unlinked, with no contact written and no autoresponse sent.
- FormSubmissionEndpoint.SubmitterLinked: stated for contacts the collection accepts. A rejected contact leaves the source's submission unlinked.
- FormSubmissionEndpoint.AutoresponseReachesSubmitter: stated for contacts the collection accepts. After a rejected contact write the source's submission is unlinked, and no reply is sent.
- Store.FindContactByEmail: the source's `limit: 1` query (src/endpoints/unsubscribeHandler.ts:52-56, src/collections/form-submissions/hooks/processFormSubmission.ts:85-88) gives no sort, so which of several contacts with one address it returns is up to the database. The model's choice is the lowest id.
- ResendAdapter.FindByProviderId: the same choice for several emails with one provider id; the source's query (src/adapters/resend-adapter.ts:175-179) gives no sort, and the model takes the lowest id.
- UnsubscribeEndpoint.UnsubscribeOnlyOptsOut: where several contacts share an address, stated for the lowest-id one, which is the model's choice of match (see `Store.FindContactByEmail` above) and not a promise of the source.
- UnsubscribeEndpoint.FindsAddressOf: where several contacts share an address, stated for the lowest-id one, which is the model's choice of match (see `Store.FindContactByEmail` above) and not a promise of the source.
- UnsubscribeEndpoint.UnsubscribeAfterSend: where several contacts share an address, stated for the lowest-id one, which is the model's choice of match (see `Store.FindContactByEmail` above) and not a promise of the source.
- UnsubscribeEndpoint.SentEmailCanBeUnsubscribed: where several contacts share an address, stated for the lowest-id one, which is the model's choice of match (see `Store.FindContactByEmail` above) and not a promise of the source.
- FormSubmissionProcessing.UpsertedContactHoldsUpdate: where several contacts share an address, stated for the lowest-id one, which is the model's choice of match (see `Store.FindContactByEmail` above) and not a promise of the source.
- Broadcast `previewText` and `replyTo` pass through to the message unchanged and are not modelled.
- The email `status` default `draft` is not one of the select's options (`EmailsCollection.StatusOptionsAreStatuses`). The plugin always writes an explicit status, so the model never applies the default.
- `type` or `email_id` values in a webhook payload that are not strings are treated as absent. Prototype-inherited JSON keys are not modelled.
- Zod issue messages and the request-body read error are parameters.
- Form-submission ids are not covered by `Store.Consistent`.
- `NaN` and the value of a fractional number lie outside the model: a fractional number is the one value `Json.Frac`, and `NaN` appears only as the input of the webhook timestamp finding below.
- `src/index.ts` (plugin registration) and `dev/` are not part of this model.
- ResendAdapter.VerifyWebhook: uses the corrected timestamp check (`TimestampAccepted`). A validly signed request whose `svix-timestamp` has no leading digits is accepted by the source (see Findings) but rejected here, and so also by `ResendAdapter.ResendWebhook`, `ResendAdapter.WebhookRecordsKnownEvents`, `ResendAdapter.WebhookWritesNothingOtherwise` and `EmailWebhookEndpoint.ResendWebhookAlwaysAcknowledged`. On timestamps of decimal digits both checks agree (`ResendAdapter.TimestampWindow`).
- UnsubscribeEndpoint.SentEmailCanBeUnsubscribed: assumes that the token record's `emailId` reads back as an id. The source reads the record with `findByID` at the default depth (src/endpoints/unsubscribeHandler.ts:25-28), where a relationship field can come back as the populated Email document. It then passes that value as the `id` of the Email lookup (src/endpoints/unsubscribeHandler.ts:120). How the database treats a document given as an id is outside this model, so the lemma does not cover that case.
- UnsubscribeEndpoint.UnsubscribeAfterSend: the same assumption as above, that the record's `emailId` is an id and not a populated document.
- UnsubscribeEndpoint.Unsubscribe: the record's `emailId` is modelled as an id (see the line above); a populated `emailId` is not modelled.
- FormAutoresponse.SendAutoresponse: a transport failure is caught and logged by the source; the model records the attempt in the outbox and does not model the failure path.

## Findings

| source | as written | input that shows it | evidently intended | confidence | as-written member | corrected member |
|---|---|---|---|---|---|---|
| src/adapters/resend-adapter.ts:94-101 | the timestamp window compares `parseInt(timestamp)` with `now`; a non-numeric timestamp gives `NaN`, both comparisons are false, and the window check passes | header `svix-timestamp: never` | a timestamp that is not a number is rejected | not executed | ResendAdapter.TimestampAcceptedAsWritten | ResendAdapter.TimestampAccepted |
| src/endpoints/sendTestBroadcastHandler.ts:110-118 | the 404 branch is unreachable because `findByID` throws on a missing id; the catch at lines 187-190 answers 500 `INTERNAL_ERROR` | a test send for a broadcast id that does not exist | 404 `BROADCAST_NOT_FOUND` | not executed | SendTestBroadcastEndpoint.SendTestBroadcastSpecAsWritten | SendTestBroadcastEndpoint.SendTestBroadcastSpec |
| src/collections/emails/generateEmailsCollection.ts:179-185 | a user `hooks.beforeChange` override replaces the hook list, so the status sync no longer runs | an override `beforeChange: []`, then a `bounced` activity on a `sent` email | the user's hooks run in addition to the status sync | not executed | EmailsCollection.EmailsBeforeChangeAsWritten | EmailsCollection.EmailsBeforeChange |
