/** The Resend email adapter: the send request it makes, and its webhook
    handler, which authenticates a Svix-signed event and appends the reported
    activity to the email it names. */
module ResendAdapter {
  import opened Common
  import opened Strings
  import opened EmailTypes
  import opened Store
  import opened SyncStatus
  import opened EmailAddress
  import opened SendEmailWorker
  import opened EmailsCollection

  const ResendApiUrl: string := "https://api.resend.com/emails"

  /** How far, in seconds, a webhook's timestamp may be from the clock. */
  const WebhookTimestampToleranceSeconds: int := 5 * 60

  // ---------------------------------------------------------------------
  // Sending.

  /** The adapter's options; `render` is the email template. */
  datatype ResendOptions = ResendOptions(
    apiKey: string, defaultFromAddress: string, defaultFromName: string, webhookSecret: string)

  /** The JSON body posted to the API. */
  datatype EmailPayload = EmailPayload(from: string, html: string, subject: string, to: string)

  /** The `fetch` the adapter makes. */
  datatype HttpRequest = HttpRequest(url: string, httpMethod: string, headers: map<string, string>, body: EmailPayload)

  /** The API's answer: whether it was `ok`, and its body read as JSON
      (`None` when that throws). */
  datatype HttpResponse = HttpResponse(ok: bool, json: Option<Json>)

  /** The request headers: the bearer key, the content type, and the
      idempotency key when one is given and non-empty. */
  function RequestHeaders(apiKey: string, idempotencyKey: Option<string>): (h: map<string, string>)
    ensures "Authorization" in h && h["Authorization"] == "Bearer " + apiKey
    ensures "Content-Type" in h && h["Content-Type"] == "application/json"
    ensures "Idempotency-Key" in h <==> idempotencyKey.Some? && idempotencyKey.value != ""
    ensures "Idempotency-Key" in h ==> h["Idempotency-Key"] == idempotencyKey.value
    ensures h.Keys <= {"Authorization", "Content-Type", "Idempotency-Key"}
  {
    var base := map["Authorization" := "Bearer " + apiKey, "Content-Type" := "application/json"];
    if idempotencyKey.Some? && idempotencyKey.value != "" then base["Idempotency-Key" := idempotencyKey.value]
    else base
  }

  /** The headers as the adapter builds them: a dictionary it adds to. */
  method BuildRequestHeaders(apiKey: string, idempotencyKey: Option<string>) returns (headers: map<string, string>)
    ensures headers == RequestHeaders(apiKey, idempotencyKey)
  {
    headers := map[];
    headers := headers["Authorization" := "Bearer " + apiKey];
    headers := headers["Content-Type" := "application/json"];
    if idempotencyKey.Some? && idempotencyKey.value != "" {
      headers := headers["Idempotency-Key" := idempotencyKey.value];
    }
  }

  /** The sender: the message's own when non-empty, else the default name and
      address formatted together. */
  function SenderOf(opts: ResendOptions, message: OutboundMessage): (from: string)
    ensures message.from != "" ==> from == message.from
    ensures message.from == "" && opts.defaultFromName == "" ==> from == opts.defaultFromAddress
  {
    if message.from != "" then message.from else FormatFromAddress(opts.defaultFromName, opts.defaultFromAddress)
  }

  /** `sendEmail`: the request for a message. */
  function SendRequest(opts: ResendOptions, message: OutboundMessage): (r: HttpRequest)
    ensures r.url == ResendApiUrl && r.httpMethod == "POST"
    ensures r.body == EmailPayload(SenderOf(opts, message), message.html, message.subject, message.to)
    ensures r.headers == RequestHeaders(opts.apiKey, message.idempotencyKey)
  {
    HttpRequest(ResendApiUrl, "POST", RequestHeaders(opts.apiKey, message.idempotencyKey),
                EmailPayload(SenderOf(opts, message), message.html, message.subject, message.to))
  }

  /** What the worker sees of the answer: a throw unless it is `ok` and its
      body reads as an object-like JSON value; the provider id is the body's
      `id` when that is a string. */
  function SendOutcomeOf(response: HttpResponse): (r: SendOutcome)
    ensures r.Accepted? <==> response.ok && response.json.Some? && Member(response.json.value, "id").Some?
    ensures r.Accepted? && r.providerId.Some? ==> Member(response.json.value, "id") == Some(Str(r.providerId.value))
  {
    if !response.ok || response.json.None? then Rejected
    else match Member(response.json.value, "id")
      case None => Rejected
      case Some(Str(id)) => Accepted(Some(id))
      case Some(_) => Accepted(None)
  }

  /** Every send of the same (broadcast, contact) pair carries the same
      `Idempotency-Key`, and two different pairs carry different ones, so the
      provider delivers each pair's email at most once across retries. */
  lemma IdempotencyHeaderPerPair(opts: ResendOptions, m1: OutboundMessage, m2: OutboundMessage,
                                 b1: nat, c1: nat, b2: nat, c2: nat)
    requires m1.idempotencyKey == Some(IdempotencyKey(b1, c1))
    requires m2.idempotencyKey == Some(IdempotencyKey(b2, c2))
    ensures "Idempotency-Key" in SendRequest(opts, m1).headers && "Idempotency-Key" in SendRequest(opts, m2).headers
    ensures SendRequest(opts, m1).headers["Idempotency-Key"] == SendRequest(opts, m2).headers["Idempotency-Key"]
            <==> b1 == b2 && c1 == c2
  {
    IdempotencyKeyShape(b1, c1);
    IdempotencyKeyShape(b2, c2);
    if IdempotencyKey(b1, c1) == IdempotencyKey(b2, c2) {
      IdempotencyKeyInjective(b1, c1, b2, c2);
    }
  }

  // ---------------------------------------------------------------------
  // Webhook authentication.

  /** The webhook request: the three Svix headers (absent as `None`) and the
      body text (`None` when the request has no `text` method). */
  datatype WebhookRequest = WebhookRequest(
    svixId: Option<string>, svixTimestamp: Option<string>, svixSignature: Option<string>, text: Option<string>)

  /** The library functions the webhook relies on: HMAC-SHA256 keyed by a
      base64 secret with a base64 digest, and `JSON.parse` (`None` when it
      throws). */
  datatype WebhookCrypto = WebhookCrypto(hmac: (string, string) -> string, parse: string -> Option<Json>)

  /** A header that is absent or empty. */
  predicate MissingHeader(h: Option<string>)
  {
    h.None? || h.value == ""
  }

  function Abs(x: int): nat
  {
    if x < 0 then -x else x
  }

  /** `verifyTimestamp` as written: `now` is in milliseconds; a timestamp
      `parseInt` cannot read (`NaN`) makes the comparison false and passes. */
  function TimestampAcceptedAsWritten(timestamp: string, now: int): bool
  {
    match ParseIntJs(timestamp)
    case None => true
    case Some(t) => Abs(now / 1000 - t) <= WebhookTimestampToleranceSeconds
  }

  /** `verifyTimestamp` as intended: the timestamp must be a number of seconds
      within the tolerance of the clock. */
  function TimestampAccepted(timestamp: string, now: int): (ok: bool)
    ensures ok ==> ParseIntJs(timestamp).Some?
    ensures ok ==> TimestampAcceptedAsWritten(timestamp, now)
  {
    match ParseIntJs(timestamp)
    case None => false
    case Some(t) => Abs(now / 1000 - t) <= WebhookTimestampToleranceSeconds
  }

  /** For a timestamp written as a decimal number of seconds both versions
      agree: accepted exactly when it is at most five minutes from the clock,
      either way. */
  lemma TimestampWindow(t: nat, now: int)
    ensures TimestampAccepted(NatToString(t), now) == TimestampAcceptedAsWritten(NatToString(t), now)
    ensures TimestampAccepted(NatToString(t), now) <==> t - 300 <= now / 1000 <= t + 300
  {
    ParseIntOfNatToString(t);
  }

  /** As written, a timestamp with no digits passes whatever the clock says;
      the intended check rejects it. */
  lemma NonNumericTimestampPasses(now: int)
    ensures TimestampAcceptedAsWritten("never", now)
    ensures !TimestampAccepted("never", now)
  {
    assert !IsSpace('n');
    assert "never"[0..] == "never";
    assert DigitRun("never") == 0;
  }

  /** The HMAC key: the part after the first `_` when there is one (the
      `whsec_` prefix), else the whole secret. */
  function SigningSecret(webhookSecret: string): (key: string)
    ensures '_' !in key
  {
    var parts := Split(webhookSecret, '_');
    if |parts| > 1 then parts[1] else parts[0]
  }

  /** A `whsec_`-prefixed secret is keyed by what follows the prefix, and a
      secret without `_` by itself. */
  lemma SigningSecretOf(k: string)
    requires '_' !in k
    ensures SigningSecret("whsec_" + k) == k
    ensures SigningSecret(k) == k
  {
    SplitAtFirst("whsec", '_', k);
    assert "whsec_" + k == "whsec" + ['_'] + k;
    SplitWithoutSeparator(k, '_');
  }

  /** What is signed: `{id}.{timestamp}.{body}`. */
  function SignedContent(id: string, timestamp: string, body: string): string
  {
    id + "." + timestamp + "." + body
  }

  function ExpectedSignature(id: string, timestamp: string, body: string, webhookSecret: string,
                             c: WebhookCrypto): string
  {
    c.hmac(SigningSecret(webhookSecret), SignedContent(id, timestamp, body))
  }

  /** One entry of the signature header, `version,signature`: it matches when
      the version is exactly `v1` and a signature is there and equal to the
      expected one (one of a different length fails the comparison). */
  predicate EntryMatches(entry: string, expected: string)
  {
    var parts := Split(entry, ',');
    parts[0] == "v1" && |parts| >= 2 && parts[1] == expected
  }

  /** Whether some entry matches. */
  function AnyEntryMatches(entries: seq<string>, expected: string): (r: bool)
    ensures r <==> exists i :: 0 <= i < |entries| && EntryMatches(entries[i], expected)
  {
    if entries == [] then false
    else EntryMatches(entries[0], expected) || AnyEntryMatches(entries[1..], expected)
  }

  /** `verifySignature`: the header is a space-separated list of entries. */
  predicate SignatureValid(header: string, expected: string)
  {
    AnyEntryMatches(Split(header, ' '), expected)
  }

  /** A `v1` entry carrying the expected signature matches. */
  lemma V1EntryMatches(expected: string)
    requires ',' !in expected
    ensures EntryMatches("v1," + expected, expected)
  {
    assert "v1," + expected == "v1" + [','] + expected;
    SplitAtFirst("v1", ',', expected);
    SplitWithoutSeparator(expected, ',');
  }

  /** The expected signature under any other version does not. */
  lemma OtherVersionNeverMatches(version: string, expected: string)
    requires ',' !in version && version != "v1"
    ensures !EntryMatches(version + "," + expected, expected)
  {
    assert version + "," + expected == version + [','] + expected;
    SplitAtFirst(version, ',', expected);
  }

  /** A header made of entries without spaces is accepted when one of them,
      here the last, matches. */
  lemma SignatureOfEntries(entries: seq<string>, expected: string)
    requires |entries| >= 1 && EntryMatches(entries[|entries| - 1], expected)
    requires forall i :: 0 <= i < |entries| ==> ' ' !in entries[i]
    ensures SignatureValid(Join(entries, ' '), expected)
  {
    SplitJoin(entries, ' ');
    assert EntryMatches(entries[|entries| - 1], expected);
  }

  lemma NoSpaceAppend(others: seq<string>, entry: string)
    requires ' ' !in entry
    requires forall i :: 0 <= i < |others| ==> ' ' !in others[i]
    ensures forall i :: 0 <= i < |others + [entry]| ==> ' ' !in (others + [entry])[i]
  {
    var entries := others + [entry];
    forall i | 0 <= i < |entries|
      ensures ' ' !in entries[i]
    {
      if i < |others| {
        assert entries[i] == others[i];
      }
    }
  }

  /** A matching entry is accepted next to any other entries, as during a
      key rotation. */
  lemma SignatureWithMatchingEntry(others: seq<string>, entry: string, expected: string)
    requires EntryMatches(entry, expected) && ' ' !in entry
    requires forall i :: 0 <= i < |others| ==> ' ' !in others[i]
    ensures SignatureValid(Join(others + [entry], ' '), expected)
  {
    NoSpaceAppend(others, entry);
    SignatureOfEntries(others + [entry], expected);
  }

  /** A `v1` entry holds no space when the signature holds none. */
  lemma V1EntryHasNoSpace(expected: string)
    requires ' ' !in expected
    ensures ' ' !in "v1," + expected
  {
    var e := "v1," + expected;
    forall k | 0 <= k < |e|
      ensures e[k] != ' '
    {
      if k >= 3 {
        assert e[k] == expected[k - 3];
      }
    }
  }

  /** The expected signature under `v2` alone is rejected. */
  lemma SignatureV2Rejected(expected: string)
    requires ',' !in expected && ' ' !in expected
    ensures !SignatureValid("v2," + expected, expected)
  {
    var h := "v2," + expected;
    assert h == "v2" + "," + expected;
    OtherVersionNeverMatches("v2", expected);
    assert ' ' !in h;
    SplitWithoutSeparator(h, ' ');
  }

  /** `verifyWebhookSignature`: the three headers, then the timestamp, then the
      body, then the signature, then `JSON.parse`; `None` where it throws. */
  function VerifyWebhook(req: WebhookRequest, webhookSecret: string, now: int, c: WebhookCrypto): (r: Option<Json>)
    ensures r.Some? ==> !MissingHeader(req.svixId) && !MissingHeader(req.svixTimestamp) && !MissingHeader(req.svixSignature)
    ensures r.Some? ==> TimestampAccepted(req.svixTimestamp.value, now)
    ensures r.Some? ==> req.text.Some? && req.text.value != ""
    ensures r.Some? ==> SignatureValid(req.svixSignature.value,
                          ExpectedSignature(req.svixId.value, req.svixTimestamp.value, req.text.value, webhookSecret, c))
    ensures r.Some? ==> r == c.parse(req.text.value)
  {
    if MissingHeader(req.svixId) || MissingHeader(req.svixTimestamp) || MissingHeader(req.svixSignature) then None
    else if !TimestampAccepted(req.svixTimestamp.value, now) then None
    else if req.text.None? || req.text.value == "" then None
    else if !SignatureValid(req.svixSignature.value,
                            ExpectedSignature(req.svixId.value, req.svixTimestamp.value, req.text.value, webhookSecret, c)) then None
    else c.parse(req.text.value)
  }

  /** An event Resend signed with the shared secret, sent within five
      minutes, is accepted and read. */
  lemma SignedEventIsAccepted(id: string, t: nat, body: string, webhookSecret: string, now: int, c: WebhookCrypto)
    requires id != "" && body != ""
    requires t - 300 <= now / 1000 <= t + 300
    requires var sig := ExpectedSignature(id, NatToString(t), body, webhookSecret, c); ',' !in sig && ' ' !in sig
    ensures var sig := ExpectedSignature(id, NatToString(t), body, webhookSecret, c);
      VerifyWebhook(WebhookRequest(Some(id), Some(NatToString(t)), Some("v1," + sig), Some(body)), webhookSecret, now, c)
      == c.parse(body)
  {
    var sig := ExpectedSignature(id, NatToString(t), body, webhookSecret, c);
    TimestampWindow(t, now);
    V1EntryMatches(sig);
    V1EntryHasNoSpace(sig);
    SignatureWithMatchingEntry([], "v1," + sig, sig);
    assert Join([] + ["v1," + sig], ' ') == "v1," + sig;
  }

  // ---------------------------------------------------------------------
  // Recording the event.

  /** `WEBHOOK_EVENT_TO_ACTIVITY`: nine `email.*` event types. */
  function WebhookEventToActivity(eventType: string): (r: Option<ActivityType>)
    ensures r.Some? ==> "email." <= eventType && r.value != ActivityType.Unsubscribed
  {
    if eventType == "email.bounced" then Some(ActivityType.Bounced)
    else if eventType == "email.clicked" then Some(ActivityType.Clicked)
    else if eventType == "email.complained" then Some(ActivityType.Complained)
    else if eventType == "email.delivered" then Some(ActivityType.Delivered)
    else if eventType == "email.delivery_delayed" then Some(ActivityType.DeliveryDelayed)
    else if eventType == "email.failed" then Some(ActivityType.Failed)
    else if eventType == "email.opened" then Some(ActivityType.Opened)
    else if eventType == "email.received" then Some(ActivityType.Received)
    else if eventType == "email.sent" then Some(ActivityType.Sent)
    else None
  }

  /** The event of an activity type: `email.` and the type's name. */
  function EventName(a: ActivityType): string
  {
    "email." + ActivityName(a)
  }

  /** The first five provider activity types have their events. */
  lemma EventOfEarlyActivity(a: ActivityType)
    requires a.Bounced? || a.Clicked? || a.Complained? || a.Delivered? || a.DeliveryDelayed?
    ensures WebhookEventToActivity(EventName(a)) == Some(a)
  {
    match a
    case Bounced => assert EventName(a) == "email.bounced";
    case Clicked => assert EventName(a) == "email.clicked";
    case Complained => assert EventName(a) == "email.complained";
    case Delivered => assert EventName(a) == "email.delivered";
    case DeliveryDelayed => assert EventName(a) == "email.delivery_delayed";
  }

  /** The last four provider activity types have their events. */
  lemma EventOfLateActivity(a: ActivityType)
    requires a.Failed? || a.Opened? || a.Received? || a.Sent?
    ensures WebhookEventToActivity(EventName(a)) == Some(a)
  {
    match a
    case Failed => assert EventName(a) == "email.failed";
    case Opened => assert EventName(a) == "email.opened";
    case Received => assert EventName(a) == "email.received";
    case Sent => assert EventName(a) == "email.sent";
  }

  /** Each provider activity type has its event. */
  lemma EventOfActivity(a: ActivityType)
    requires a != ActivityType.Unsubscribed
    ensures WebhookEventToActivity(EventName(a)) == Some(a)
  {
    if a.Failed? || a.Opened? || a.Received? || a.Sent? {
      EventOfLateActivity(a);
    } else {
      EventOfEarlyActivity(a);
    }
  }

  /** An event maps to a type only if it is that type's event, so the map is
      a bijection between the nine events and the nine provider types. */
  lemma ActivityOfEvent(eventType: string)
    ensures WebhookEventToActivity(eventType).Some? ==>
      WebhookEventToActivity(eventType).value != ActivityType.Unsubscribed
      && eventType == EventName(WebhookEventToActivity(eventType).value)
  {
    if eventType == "email.bounced" {
      assert EventName(ActivityType.Bounced) == "email.bounced";
    } else if eventType == "email.clicked" {
      assert EventName(ActivityType.Clicked) == "email.clicked";
    } else if eventType == "email.complained" {
      assert EventName(ActivityType.Complained) == "email.complained";
    } else if eventType == "email.delivered" {
      assert EventName(ActivityType.Delivered) == "email.delivered";
    } else if eventType == "email.delivery_delayed" {
      assert EventName(ActivityType.DeliveryDelayed) == "email.delivery_delayed";
    } else if eventType == "email.failed" {
      assert EventName(ActivityType.Failed) == "email.failed";
    } else if eventType == "email.opened" {
      assert EventName(ActivityType.Opened) == "email.opened";
    } else if eventType == "email.received" {
      assert EventName(ActivityType.Received) == "email.received";
    } else if eventType == "email.sent" {
      assert EventName(ActivityType.Sent) == "email.sent";
    }
  }

  /** `findEmailByProviderId`: the first email with the provider id. */
  function FindByProviderId(es: seq<EmailRecord>, providerId: string): (r: Option<nat>)
    ensures r.Some? ==> r.value < |es| && es[r.value].providerId == Some(providerId)
    ensures r.Some? ==> forall i :: 0 <= i < r.value ==> es[i].providerId != Some(providerId)
    ensures r.None? <==> forall i :: 0 <= i < |es| ==> es[i].providerId != Some(providerId)
  {
    if es == [] then None
    else if es[0].providerId == Some(providerId) then Some(0)
    else match FindByProviderId(es[1..], providerId)
      case None => None
      case Some(k) => Some(k + 1)
  }

  /** `addEmailActivity` as saved: the log grows by one entry at the end, and
      the status hook then re-derives the status. */
  function RecordActivity(e: EmailRecord, a: ActivityType, now: int): (r: EmailRecord)
    ensures r.activity == e.activity + [ActivityItem(a, now)]
    ensures r == e.(activity := r.activity, status := r.status)
  {
    SyncStatusFromActivity(e.(activity := e.activity + [ActivityItem(a, now)]))
  }

  /** `handleWebhookEvent`: an unknown event type, a provider id that is not a
      string, or no email with it, ends with no write; a type the activity
      select rejects makes the update throw. */
  function HandleWebhookEvent(s: State, eventType: Json, providerId: Json, now: int): (r: Run)
    ensures r.state == s.(emails := r.state.emails) && |r.state.emails| == |s.emails|
    ensures r.result == Threw ==> r.state == s
    ensures forall j :: 0 <= j < |s.emails| && r.state.emails[j] != s.emails[j] ==>
      && eventType.Str? && providerId.Str? && s.emails[j].providerId == Some(providerId.s)
      && WebhookEventToActivity(eventType.s).Some?
      && r.state.emails[j].activity == s.emails[j].activity + [ActivityItem(WebhookEventToActivity(eventType.s).value, now)]
  {
    var activity := if eventType.Str? then WebhookEventToActivity(eventType.s) else None;
    if activity.None? || !providerId.Str? then Run(s, Succeeded)
    else match FindByProviderId(s.emails, providerId.s)
      case None => Run(s, Succeeded)
      case Some(i) =>
        if !ActivityTypeAccepted(activity.value) then Run(s, Threw)
        else Run(s.(emails := s.emails[i := RecordActivity(s.emails[i], activity.value, now)]), Succeeded)
  }

  /** The adapter's `webhookHandler` against the store, as a function. */
  function ResendWebhookSpec(s: State, req: WebhookRequest, webhookSecret: string, now: int, c: WebhookCrypto): Run
  {
    match VerifyWebhook(req, webhookSecret, now, c)
    case None => Run(s, Threw)
    case Some(event) =>
      match Member(event, "data")
      case None => Run(s, Threw)
      case Some(data) =>
        match Member(data, "email_id")
        case None => Run(s, Threw)
        case Some(emailId) =>
          if !Truthy(emailId) then Run(s, Succeeded)
          else HandleWebhookEvent(s, Member(event, "type").value, emailId, now)
  }

  /** The webhook handler: authenticate, then append one activity entry to
      the email the event names. */
  method ResendWebhook(st: Store, req: WebhookRequest, webhookSecret: string, now: int, c: WebhookCrypto)
    returns (result: TaskResult)
    modifies st
    ensures Run(st.View(), result) == ResendWebhookSpec(old(st.View()), req, webhookSecret, now, c)
  {
    var event := VerifyWebhook(req, webhookSecret, now, c);
    if event.None? {
      return Threw;
    }
    var data := Member(event.value, "data");
    if data.None? {
      return Threw;
    }
    var emailId := Member(data.value, "email_id");
    if emailId.None? {
      return Threw;
    }
    if !Truthy(emailId.value) {
      return Succeeded;
    }
    var eventType := Member(event.value, "type").value;
    var activity := if eventType.Str? then WebhookEventToActivity(eventType.s) else None;
    if activity.None? || !emailId.value.Str? {
      return Succeeded;
    }
    var found := FindByProviderId(st.emails, emailId.value.s);
    if found.None? {
      return Succeeded;
    }
    var i := found.value;
    if !ActivityTypeAccepted(activity.value) {
      return Threw;
    }
    st.emails := st.emails[i := RecordActivity(st.emails[i], activity.value, now)];
    return Succeeded;
  }

  // ---------------------------------------------------------------------
  // Properties.

  /** The webhook writes only emails' logs and statuses: every other
      collection, the ids, and every email but one are kept, and that one's
      log is its old log followed by exactly one entry stamped `now`, with
      its status re-derived from the new log. */
  lemma WebhookAppendsOneEntry(s: State, req: WebhookRequest, webhookSecret: string, now: int, c: WebhookCrypto)
    ensures var r := ResendWebhookSpec(s, req, webhookSecret, now, c);
      && r.state == s.(emails := r.state.emails)
      && EmailIds(r.state.emails) == EmailIds(s.emails)
      && (r.state != s ==>
            r.result == Succeeded &&
            exists i, a :: 0 <= i < |s.emails| && ActivityTypeAccepted(a) &&
              r.state.emails == s.emails[i := r.state.emails[i]] &&
              r.state.emails[i].activity == s.emails[i].activity + [ActivityItem(a, now)] &&
              r.state.emails[i] == s.emails[i].(activity := r.state.emails[i].activity, status := r.state.emails[i].status) &&
              IsMostSignificantOrKept(s.emails[i], r.state.emails[i]))
  {
    var r := ResendWebhookSpec(s, req, webhookSecret, now, c);
    if r.state != s {
      var event := VerifyWebhook(req, webhookSecret, now, c).value;
      var eventType := Member(event, "type").value;
      var a := WebhookEventToActivity(eventType.s).value;
      var pid := Member(Member(event, "data").value, "email_id").value.s;
      var i := FindByProviderId(s.emails, pid).value;
      var e := s.emails[i].(activity := s.emails[i].activity + [ActivityItem(a, now)]);
      SyncStatusIsMostSignificantOrKept(e);
      assert r.state.emails == s.emails[i := RecordActivity(s.emails[i], a, now)];
    }
    assert EmailIds(r.state.emails) == EmailIds(s.emails);
  }

  /** The status after an append: the most significant one of the log, or the
      old one when no entry of the log carries a status. */
  ghost predicate IsMostSignificantOrKept(old_: EmailRecord, new_: EmailRecord)
  {
    if DerivedStatus(new_.activity).Some? then IsMostSignificant(new_.activity, new_.status)
    else new_.status == old_.status
  }

  lemma SyncStatusIsMostSignificantOrKept(e: EmailRecord)
    ensures IsMostSignificantOrKept(e, SyncStatusFromActivity(e))
  {
    if DerivedStatus(e.activity).Some? {
      DerivedStatusIsMostSignificant(e.activity);
      SyncStatusIsMostSignificant(e);
    }
  }

  /** An authenticated event for a known email records it, unless its type
      is one the activity select rejects (`email.delivery_delayed`,
      `email.failed`, `email.received`): then the update throws and nothing
      is written, so those events never reach the log. */
  lemma WebhookRecordsKnownEvents(s: State, req: WebhookRequest, webhookSecret: string, now: int, c: WebhookCrypto,
                                  a: ActivityType, pid: string)
    requires a != ActivityType.Unsubscribed && pid != ""
    requires VerifyWebhook(req, webhookSecret, now, c)
             == Some(Obj(map["type" := Str(EventName(a)), "data" := Obj(map["email_id" := Str(pid)])]))
    requires FindByProviderId(s.emails, pid).Some?
    ensures var r := ResendWebhookSpec(s, req, webhookSecret, now, c);
      var i := FindByProviderId(s.emails, pid).value;
      && (ActivityTypeAccepted(a) ==>
            r == Run(s.(emails := s.emails[i := RecordActivity(s.emails[i], a, now)]), Succeeded))
      && (!ActivityTypeAccepted(a) ==> r == Run(s, Threw))
      && (!ActivityTypeAccepted(a) <==>
            a == ActivityType.DeliveryDelayed || a == ActivityType.Failed || a == ActivityType.Received)
  {
    var event := Obj(map["type" := Str(EventName(a)), "data" := Obj(map["email_id" := Str(pid)])]);
    assert Member(event, "data") == Some(Obj(map["email_id" := Str(pid)]));
    assert Member(Obj(map["email_id" := Str(pid)]), "email_id") == Some(Str(pid));
    assert Member(event, "type") == Some(Str(EventName(a)));
    assert ResendWebhookSpec(s, req, webhookSecret, now, c) == HandleWebhookEvent(s, Str(EventName(a)), Str(pid), now);
    HandleKnownEvent(s, a, pid, now);
  }

  /** The event step for a provider type and a stored provider id. */
  lemma HandleKnownEvent(s: State, a: ActivityType, pid: string, now: int)
    requires a != ActivityType.Unsubscribed
    requires FindByProviderId(s.emails, pid).Some?
    ensures var r := HandleWebhookEvent(s, Str(EventName(a)), Str(pid), now);
      var i := FindByProviderId(s.emails, pid).value;
      && (ActivityTypeAccepted(a) ==>
            r == Run(s.(emails := s.emails[i := RecordActivity(s.emails[i], a, now)]), Succeeded))
      && (!ActivityTypeAccepted(a) ==> r == Run(s, Threw))
      && (!ActivityTypeAccepted(a) <==>
            a == ActivityType.DeliveryDelayed || a == ActivityType.Failed || a == ActivityType.Received)
  {
    EventOfActivity(a);
    ActivityTypesAccepted(a);
  }

  /** Nothing is written when the request fails authentication, when the
      event has no `email_id`, when its type is not one of the nine, or when
      no email has its provider id. */
  lemma WebhookWritesNothingOtherwise(s: State, req: WebhookRequest, webhookSecret: string, now: int, c: WebhookCrypto)
    ensures var r := ResendWebhookSpec(s, req, webhookSecret, now, c);
      var event := VerifyWebhook(req, webhookSecret, now, c);
      && (event.None? ==> r == Run(s, Threw))
      && ((event.Some? && event.value.Obj? && Lookup(event.value.fields, "data").Obj?
             && !Truthy(Lookup(Lookup(event.value.fields, "data").fields, "email_id"))) ==> r == Run(s, Succeeded))
      && ((event.Some? && event.value.Obj? && Lookup(event.value.fields, "type").Str?
             && WebhookEventToActivity(Lookup(event.value.fields, "type").s).None?) ==> r.state == s)
      && ((event.Some? && event.value.Obj? && Lookup(event.value.fields, "data").Obj?
             && Lookup(Lookup(event.value.fields, "data").fields, "email_id").Str?
             && FindByProviderId(s.emails, Lookup(Lookup(event.value.fields, "data").fields, "email_id").s).None?)
            ==> r.state == s)
  {
  }
}
