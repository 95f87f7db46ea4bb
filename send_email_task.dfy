/** The `send-email` task: delivers one broadcast to one contact. It skips a
    pair that already has an Email record, records the email as `queued`,
    records the unsubscribe token that points at it, hands the message to the
    transport with an idempotency key, and marks the record `sent`. */
module SendEmailWorker {
  import opened Common
  import opened Strings
  import opened EmailTypes
  import opened Store
  import opened SyncStatus
  import opened EmailAddress
  import opened UnsubscribeToken
  import opened UnsubscribeTokens

  /** The transport's answer: the provider's id for the message (absent when
      the adapter returns none), or a throw. */
  datatype SendOutcome = Accepted(providerId: Option<string>) | Rejected

  /** What a run depends on besides the store: the clock (ms), the random
      token id, the server secret, the token codec, the email template and the
      transport's answer. */
  datatype Environment = Environment(
    now: int,
    tokenId: string,
    secret: Option<string>,
    codec: Codec,
    render: RenderInput -> string,
    transport: SendOutcome)

  /** The task's output `{ success: true }`, or a throw (which the job queue
      retries). */
  datatype TaskResult = Succeeded | Threw

  /** A run: the store after it and how it ended. */
  datatype Run = Run(state: State, result: TaskResult)

  /** `checkEmailExists`: the first Email record of the pair, if any. */
  function FindEmail(es: seq<EmailRecord>, broadcastId: nat, contactId: nat): (r: Option<nat>)
    ensures r.Some? ==> r.value < |es| && es[r.value].broadcast == broadcastId && es[r.value].contact == contactId
    ensures r.None? <==> forall i :: 0 <= i < |es| ==> !(es[i].broadcast == broadcastId && es[i].contact == contactId)
  {
    if es == [] then None
    else if es[0].broadcast == broadcastId && es[0].contact == contactId then Some(0)
    else match FindEmail(es[1..], broadcastId, contactId)
      case None => None
      case Some(k) => Some(k + 1)
  }

  /** `contact.email`: the contact's address, empty when it has none. */
  function ContactEmail(c: Contact): string
  {
    var v := Lookup(c.fields, "email");
    if v.Str? then v.s else ""
  }

  /** `broadcast-{broadcastId}-contact-{contactId}` */
  function IdempotencyKey(broadcastId: nat, contactId: nat): string
  {
    "broadcast-" + NatToString(broadcastId) + "-contact-" + NatToString(contactId)
  }

  /** The record created before the send: `queued`, with no provider id and
      no activity, passed through the collection's sync hook. */
  function QueuedRecord(id: nat, b: Broadcast, c: Contact, from: string, html: string): (r: EmailRecord)
    ensures r.status == EmailStatus.Queued && r.providerId.None? && r.activity == []
    ensures r.id == id && r.broadcast == b.id && r.contact == c.id && r.to == ContactEmail(c)
  {
    SyncStatusFromActivity(EmailRecord(id, b.id, c.id, from, html, EmailStatus.Queued, b.subject, ContactEmail(c), None, []))
  }

  /** The update after a send: status `sent`, one `sent` entry and the
      provider's id, passed through the collection's sync hook. */
  function MarkSent(e: EmailRecord, providerId: Option<string>, now: int): (r: EmailRecord)
    ensures r == e.(activity := [ActivityItem(ActivityType.Sent, now)], providerId := providerId, status := EmailStatus.Sent)
  {
    SentEntryKeepsSent(e.(activity := [ActivityItem(ActivityType.Sent, now)], providerId := providerId, status := EmailStatus.Sent), now);
    SyncStatusFromActivity(e.(
      activity := [ActivityItem(ActivityType.Sent, now)],
      providerId := providerId,
      status := EmailStatus.Sent))
  }

  /** The part of the run after the Email record at `position` exists: the
      token record, the send, and the update to `sent`. */
  function Deliver(s: State, position: nat, tokenId: string, record: TokenRecord,
                   message: OutboundMessage, transport: SendOutcome, now: int): (r: Run)
    requires position < |s.emails|
    ensures tokenId in s.tokens ==> r == Run(s, Threw)
    ensures tokenId !in s.tokens ==>
      && r.state.tokens == s.tokens[tokenId := record] && r.state.outbox == s.outbox + [message]
      && r.state.broadcasts == s.broadcasts && r.state.contacts == s.contacts && r.state.jobs == s.jobs
      && r.state.forms == s.forms && r.state.submissions == s.submissions
      && (r.result == Succeeded <==> transport.Accepted?)
      && (transport.Rejected? ==> r.state.emails == s.emails)
      && (transport.Accepted? ==>
            && |r.state.emails| == |s.emails|
            && r.state.emails == s.emails[position := r.state.emails[position]]
            && r.state.emails[position].status == EmailStatus.Sent
            && r.state.emails[position].providerId == transport.providerId
            && r.state.emails[position].activity == [ActivityItem(ActivityType.Sent, now)])
  {
    if tokenId in s.tokens then Run(s, Threw)
    else
      var s' := s.(tokens := s.tokens[tokenId := record], outbox := s.outbox + [message]);
      match transport
      case Rejected => Run(s', Threw)
      case Accepted(providerId) =>
        Run(s'.(emails := s.emails[position := MarkSent(s.emails[position], providerId, now)]), Succeeded)
  }

  /** The task as a function of the store and its input. */
  function SendEmailSpec(s: State, broadcastId: nat, contactId: nat, env: Environment): Run
  {
    if FindEmail(s.emails, broadcastId, contactId).Some? then Run(s, Succeeded)
    else
      var ci := FindId(ContactIds(s.contacts), contactId);
      var bi := FindId(BroadcastIds(s.broadcasts), broadcastId);
      if ci.None? || bi.None? then Run(s, Threw)
      else
        var contact := s.contacts[ci.value];
        var broadcast := s.broadcasts[bi.value];
        var fromAddress := FormatFromAddress(broadcast.fromName, broadcast.fromAddress);
        match Generate(env.secret, env.now, env.tokenId, env.codec)
        case None => Run(s, Threw)
        case Some(token) =>
          var to := ContactEmail(contact);
          var html := env.render(RenderInput(fromAddress, broadcast.content, broadcast.subject, to, token));
          var id := NextId(EmailIds(s.emails));
          Deliver(s.(emails := s.emails + [QueuedRecord(id, broadcast, contact, fromAddress, html)]), |s.emails|,
                  env.tokenId, TokenRecord(Some(id), ExpiresAtOnChange(Create, None, env.now)),
                  OutboundMessage(fromAddress, html, broadcast.subject, to, Some(IdempotencyKey(broadcastId, contactId))),
                  env.transport, env.now)
  }

  /** The task handler against the store. */
  method SendEmail(st: Store, broadcastId: nat, contactId: nat, env: Environment) returns (result: TaskResult)
    modifies st
    ensures Run(st.View(), result) == SendEmailSpec(old(st.View()), broadcastId, contactId, env)
  {
    var existingEmail := FindEmail(st.emails, broadcastId, contactId);
    if existingEmail.Some? {
      return Succeeded;
    }
    var ci := FindId(ContactIds(st.contacts), contactId);
    var bi := FindId(BroadcastIds(st.broadcasts), broadcastId);
    if ci.None? || bi.None? {
      return Threw;
    }
    var contact := st.contacts[ci.value];
    var broadcast := st.broadcasts[bi.value];
    var fromAddress := FormatFromAddress(broadcast.fromName, broadcast.fromAddress);
    var unsubscribeToken := Generate(env.secret, env.now, env.tokenId, env.codec);
    if unsubscribeToken.None? {
      return Threw;
    }
    var to := ContactEmail(contact);
    var html := env.render(RenderInput(fromAddress, broadcast.content, broadcast.subject, to, unsubscribeToken.value));
    // Create the record before sending so that a failed send is visible.
    var position := |st.emails|;
    var id := NextId(EmailIds(st.emails));
    st.emails := st.emails + [QueuedRecord(id, broadcast, contact, fromAddress, html)];
    var message := OutboundMessage(fromAddress, html, broadcast.subject, to, Some(IdempotencyKey(broadcastId, contactId)));
    result := DeliverTo(st, position, id, env.tokenId, message, env.transport, env.now);
  }

  /** The run after the Email record exists, against the store: the token
      record through the token collection's hook, the send, and the update. */
  method DeliverTo(st: Store, position: nat, emailId: nat, tokenId: string, message: OutboundMessage,
                   transport: SendOutcome, now: int) returns (result: TaskResult)
    requires position < |st.emails|
    modifies st
    ensures Run(st.View(), result)
         == Deliver(old(st.View()), position, tokenId, TokenRecord(Some(emailId), ExpiresAtOnChange(Create, None, now)),
                    message, transport, now)
  {
    if tokenId in st.tokens {
      return Threw;
    }
    var data := new TokenData(tokenId, Some(emailId), None);
    data.BeforeChange(Create, now);
    st.tokens := st.tokens[data.id := TokenRecord(data.emailId, data.expiresAt)];
    st.outbox := st.outbox + [message];
    if transport.Rejected? {
      return Threw;
    }
    st.emails := st.emails[position := MarkSent(st.emails[position], transport.providerId, now)];
    return Succeeded;
  }

  // ---------------------------------------------------------------------
  // Properties.

  /** No Email record for a pair and the run reaches the transport. */
  predicate ReachesTransport(s: State, broadcastId: nat, contactId: nat, env: Environment)
  {
    && FindEmail(s.emails, broadcastId, contactId).None?
    && contactId in ContactIds(s.contacts)
    && broadcastId in BroadcastIds(s.broadcasts)
    && !MissingSecret(env.secret)
    && env.tokenId !in s.tokens
  }

  /** A pair that already has an Email record succeeds without a write; an
      unknown contact or broadcast, or a missing secret, throws before any
      write. */
  lemma WorkerWritesNothingEarly(s: State, broadcastId: nat, contactId: nat, env: Environment)
    ensures FindEmail(s.emails, broadcastId, contactId).Some? ==>
      SendEmailSpec(s, broadcastId, contactId, env) == Run(s, Succeeded)
    ensures (FindEmail(s.emails, broadcastId, contactId).None?
      && (contactId !in ContactIds(s.contacts) || broadcastId !in BroadcastIds(s.broadcasts) || MissingSecret(env.secret))) ==>
      SendEmailSpec(s, broadcastId, contactId, env) == Run(s, Threw)
  {
  }

  /** The record created at the start of the run: `queued`, no provider id,
      no activity, for the pair, with the formatted sender. */
  lemma QueuedRecordIsQueued(id: nat, b: Broadcast, c: Contact, from: string, html: string)
    ensures var e := SyncStatusFromActivity(EmailRecord(id, b.id, c.id, from, html, EmailStatus.Queued, b.subject, ContactEmail(c), None, []));
      e == EmailRecord(id, b.id, c.id, from, html, EmailStatus.Queued, b.subject, ContactEmail(c), None, [])
  {
  }

  /** A single `sent` entry makes the sync hook keep status `sent`. */
  lemma SentEntryKeepsSent(e: EmailRecord, now: int)
    requires e.status == EmailStatus.Sent && e.activity == [ActivityItem(ActivityType.Sent, now)]
    ensures SyncStatusFromActivity(e) == e
  {
    assert e.activity[..0] == [];
    assert DerivedStatus(e.activity) == Some(EmailStatus.Sent);
  }

  /** A run past the lookups and the token generation goes on with the store
      holding the queued record of the pair, the token record that points at
      it, and the pair's message. */
  lemma QueuedRun(s: State, broadcastId: nat, contactId: nat, env: Environment)
    requires FindEmail(s.emails, broadcastId, contactId).None?
    requires contactId in ContactIds(s.contacts) && broadcastId in BroadcastIds(s.broadcasts)
    requires !MissingSecret(env.secret)
    ensures var c := s.contacts[FindId(ContactIds(s.contacts), contactId).value];
      var b := s.broadcasts[FindId(BroadcastIds(s.broadcasts), broadcastId).value];
      var from := FormatFromAddress(b.fromName, b.fromAddress);
      var token := Generate(env.secret, env.now, env.tokenId, env.codec);
      && b.id == broadcastId && c.id == contactId
      && token.Some?
      && var html := env.render(RenderInput(from, b.content, b.subject, ContactEmail(c), token.value));
         var id := NextId(EmailIds(s.emails));
         var q := EmailRecord(id, broadcastId, contactId, from, html, EmailStatus.Queued, b.subject, ContactEmail(c), None, []);
         SendEmailSpec(s, broadcastId, contactId, env)
           == Deliver(s.(emails := s.emails + [q]), |s.emails|, env.tokenId,
                      TokenRecord(Some(id), Some(env.now + UnsubscribeTokenExpiration)),
                      OutboundMessage(from, html, b.subject, ContactEmail(c), Some(IdempotencyKey(broadcastId, contactId))),
                      env.transport, env.now)
  {
    var ci := FindId(ContactIds(s.contacts), contactId).value;
    var bi := FindId(BroadcastIds(s.broadcasts), broadcastId).value;
    var c := s.contacts[ci];
    var b := s.broadcasts[bi];
    assert ContactIds(s.contacts)[ci] == contactId && BroadcastIds(s.broadcasts)[bi] == broadcastId;
    var from := FormatFromAddress(b.fromName, b.fromAddress);
    var token := Generate(env.secret, env.now, env.tokenId, env.codec).value;
    var html := env.render(RenderInput(from, b.content, b.subject, ContactEmail(c), token));
    QueuedRecordIsQueued(NextId(EmailIds(s.emails)), b, c, from, html);
    assert ExpiresAtOnChange(Create, None, env.now) == Some(env.now + UnsubscribeTokenExpiration);
  }

  /** Marking a record sent keeps its id and its pair. */
  lemma MarkSentKeepsPair(e: EmailRecord, providerId: Option<string>, now: int)
    ensures var e' := MarkSent(e, providerId, now);
      e'.id == e.id && e'.broadcast == e.broadcast && e'.contact == e.contact
  {
  }

  /** A successful send: one new Email record, `sent`, with a single `sent`
      entry at the current time and the provider's id; one token record
      pointing at it and expiring in 30 days; one message to the transport,
      with the record's sender, content, subject and recipient and the pair's
      idempotency key. Nothing else changes. */
  lemma WorkerSendsOnce(s: State, broadcastId: nat, contactId: nat, env: Environment)
    requires ReachesTransport(s, broadcastId, contactId, env) && env.transport.Accepted?
    ensures var o := SendEmailSpec(s, broadcastId, contactId, env);
      var id := NextId(EmailIds(s.emails));
      && o.result == Succeeded
      && |o.state.emails| == |s.emails| + 1 && o.state.emails[..|s.emails|] == s.emails
      && var e := o.state.emails[|s.emails|];
      && e.id == id && e.broadcast == broadcastId && e.contact == contactId
      && e.status == EmailStatus.Sent && e.activity == [ActivityItem(ActivityType.Sent, env.now)]
      && e.providerId == env.transport.providerId
      && o.state.tokens == s.tokens[env.tokenId := TokenRecord(Some(id), Some(env.now + UnsubscribeTokenExpiration))]
      && o.state.outbox == s.outbox + [OutboundMessage(e.from, e.html, e.subject, e.to, Some(IdempotencyKey(broadcastId, contactId)))]
      && o.state.broadcasts == s.broadcasts && o.state.contacts == s.contacts && o.state.jobs == s.jobs
      && o.state.forms == s.forms && o.state.submissions == s.submissions
  {
    QueuedRun(s, broadcastId, contactId, env);
    var o := SendEmailSpec(s, broadcastId, contactId, env);
    var c := s.contacts[FindId(ContactIds(s.contacts), contactId).value];
    var b := s.broadcasts[FindId(BroadcastIds(s.broadcasts), broadcastId).value];
    var from := FormatFromAddress(b.fromName, b.fromAddress);
    var token := Generate(env.secret, env.now, env.tokenId, env.codec).value;
    var html := env.render(RenderInput(from, b.content, b.subject, ContactEmail(c), token));
    var q := EmailRecord(NextId(EmailIds(s.emails)), broadcastId, contactId, from, html, EmailStatus.Queued, b.subject, ContactEmail(c), None, []);
    var e := q.(activity := [ActivityItem(ActivityType.Sent, env.now)], providerId := env.transport.providerId, status := EmailStatus.Sent);
    SentEntryKeepsSent(e, env.now);
    assert MarkSent(q, env.transport.providerId, env.now) == e;
    assert o.state.emails == s.emails + [e];
  }

  /** A send the transport rejects still leaves a trace: the record stays
      `queued`, its token record stays, and the message was handed over. */
  lemma WorkerFailureIsTrackable(s: State, broadcastId: nat, contactId: nat, env: Environment)
    requires ReachesTransport(s, broadcastId, contactId, env) && env.transport.Rejected?
    ensures var o := SendEmailSpec(s, broadcastId, contactId, env);
      && o.result == Threw
      && |o.state.emails| == |s.emails| + 1 && o.state.emails[..|s.emails|] == s.emails
      && var e := o.state.emails[|s.emails|];
      && e.broadcast == broadcastId && e.contact == contactId
      && e.status == EmailStatus.Queued && e.providerId.None? && e.activity == []
      && o.state.tokens == s.tokens[env.tokenId := TokenRecord(Some(e.id), Some(env.now + UnsubscribeTokenExpiration))]
      && o.state.outbox == s.outbox + [OutboundMessage(e.from, e.html, e.subject, e.to, Some(IdempotencyKey(broadcastId, contactId)))]
  {
    QueuedRun(s, broadcastId, contactId, env);
    var o := SendEmailSpec(s, broadcastId, contactId, env);
    assert o.state.emails == s.emails + [o.state.emails[|s.emails|]];
  }

  /** The unsubscribe token in the rendered email names the token record, and
      that record points at the new Email record of the pair: within 30 days
      the token verifies to the record's id, and the record's email carries
      the html rendered with that very token. */
  lemma WorkerLinksTokenToEmail(s: State, broadcastId: nat, contactId: nat, env: Environment, later: int)
    requires ReachesTransport(s, broadcastId, contactId, env) && Sound(env.codec)
    requires later - env.now <= UnsubscribeTokenExpiration
    ensures var o := SendEmailSpec(s, broadcastId, contactId, env);
      var token := Generate(env.secret, env.now, env.tokenId, env.codec).value;
      && Verify(env.secret, later, token, env.codec) == Some(TokenInput(env.now, env.tokenId))
      && env.tokenId in o.state.tokens
      && o.state.tokens[env.tokenId] == TokenRecord(Some(NextId(EmailIds(s.emails))), Some(env.now + UnsubscribeTokenExpiration))
      && |o.state.emails| == |s.emails| + 1 && o.state.emails[..|s.emails|] == s.emails
      && o.state.contacts == s.contacts
      && var e := o.state.emails[|s.emails|];
      && e.id == NextId(EmailIds(s.emails)) && e.broadcast == broadcastId && e.contact == contactId
      && e.to == ContactEmail(s.contacts[FindId(ContactIds(s.contacts), contactId).value])
      && e.html == env.render(RenderInput(e.from, s.broadcasts[FindId(BroadcastIds(s.broadcasts), broadcastId).value].content,
                                          e.subject, e.to, token))
  {
    VerifyGenerated(env.secret, env.now, later, env.tokenId, env.codec);
    if env.transport.Accepted? {
      WorkerSendsOnce(s, broadcastId, contactId, env);
    } else {
      WorkerFailureIsTrackable(s, broadcastId, contactId, env);
    }
  }

  /** The key is the prefix, the broadcast's digits, a dash, and the rest. */
  lemma IdempotencyKeyShape(b: nat, c: nat)
    ensures IdempotencyKey(b, c) == "broadcast-" + (NatToString(b) + ['-'] + ("contact-" + NatToString(c)))
  {
  }

  /** Different pairs get different idempotency keys. */
  lemma IdempotencyKeyInjective(b1: nat, c1: nat, b2: nat, c2: nat)
    requires IdempotencyKey(b1, c1) == IdempotencyKey(b2, c2)
    ensures b1 == b2 && c1 == c2
  {
    IdempotencyKeyShape(b1, c1);
    IdempotencyKeyShape(b2, c2);
    CancelPrefix("broadcast-", NatToString(b1) + ['-'] + ("contact-" + NatToString(c1)),
                 NatToString(b2) + ['-'] + ("contact-" + NatToString(c2)));
    DigitPrefixUnique(NatToString(b1), "contact-" + NatToString(c1), NatToString(b2), "contact-" + NatToString(c2), '-');
    NatToStringInjective(b1, b2);
    CancelPrefix("contact-", NatToString(c1), NatToString(c2));
    NatToStringInjective(c1, c2);
  }

  /** A run that wrote anything left an Email record for the pair, so a retry
      of the same job, whatever it meets, succeeds without writing. */
  lemma WorkerRetryIsNoOp(s: State, broadcastId: nat, contactId: nat, env: Environment, retry: Environment)
    ensures var s1 := SendEmailSpec(s, broadcastId, contactId, env).state;
      s1 != s ==> SendEmailSpec(s1, broadcastId, contactId, retry) == Run(s1, Succeeded)
  {
    var s1 := SendEmailSpec(s, broadcastId, contactId, env).state;
    if s1 != s {
      assert FindEmail(s.emails, broadcastId, contactId).None?;
      var bi := FindId(BroadcastIds(s.broadcasts), broadcastId).value;
      var ci := FindId(ContactIds(s.contacts), contactId).value;
      assert s1.emails[|s.emails|].broadcast == broadcastId && s1.emails[|s.emails|].contact == contactId;
    }
  }

  /** At most one Email record per (broadcast, contact) pair. */
  predicate OnePerPair(es: seq<EmailRecord>)
  {
    forall i, j :: 0 <= i < j < |es| ==> !(es[i].broadcast == es[j].broadcast && es[i].contact == es[j].contact)
  }

  /** Appending a record of a pair that has none keeps one record per pair. */
  lemma AppendKeepsOnePerPair(es: seq<EmailRecord>, e: EmailRecord)
    requires OnePerPair(es) && FindEmail(es, e.broadcast, e.contact).None?
    ensures OnePerPair(es + [e])
  {
  }

  /** Appending a record with the next id keeps the email ids increasing. */
  lemma AppendNextEmailIncreasing(es: seq<EmailRecord>, e: EmailRecord)
    requires Increasing(EmailIds(es)) && e.id == NextId(EmailIds(es))
    ensures Increasing(EmailIds(es + [e]))
  {
    assert EmailIds(es + [e]) == EmailIds(es) + [NextId(EmailIds(es))];
    AppendNextIdIncreasing(EmailIds(es));
  }

  lemma EmailIdsAppend(es: seq<EmailRecord>, e: EmailRecord)
    ensures EmailIds(es + [e]) == EmailIds(es) + [e.id]
  {
  }

  /** With increasing ids, the id one past the end is found at the position
      it was appended at. */
  lemma FindAppendedEmail(es: seq<EmailRecord>, e: EmailRecord)
    requires Increasing(EmailIds(es)) && e.id == NextId(EmailIds(es))
    ensures FindId(EmailIds(es + [e]), e.id) == Some(|es|)
  {
    NextIdFresh(EmailIds(es));
    EmailIdsAppend(es, e);
    FindIdAppendFresh(EmailIds(es), e.id);
  }

  /** A store that differs from a consistent one only by a record of a new
      pair, under the next email id, appended to the emails (and by its
      tokens and outbox) is consistent and keeps one record per pair. */
  lemma AppendedEmailKeepsInvariants(s: State, s': State, e: EmailRecord)
    requires Consistent(s) && OnePerPair(s.emails)
    requires e.id == NextId(EmailIds(s.emails)) && FindEmail(s.emails, e.broadcast, e.contact).None?
    requires s'.emails == s.emails + [e]
    requires s'.broadcasts == s.broadcasts && s'.contacts == s.contacts && s'.forms == s.forms
    ensures Consistent(s') && OnePerPair(s'.emails)
  {
    AppendNextEmailIncreasing(s.emails, e);
    AppendKeepsOnePerPair(s.emails, e);
  }

  /** A run past the lookups and the token generation keeps the store's ids
      in order and at most one Email record per pair. */
  lemma QueuedRunKeepsInvariants(s: State, broadcastId: nat, contactId: nat, env: Environment)
    requires Consistent(s) && OnePerPair(s.emails)
    requires FindEmail(s.emails, broadcastId, contactId).None?
    requires contactId in ContactIds(s.contacts) && broadcastId in BroadcastIds(s.broadcasts)
    requires !MissingSecret(env.secret)
    ensures var o := SendEmailSpec(s, broadcastId, contactId, env);
      Consistent(o.state) && OnePerPair(o.state.emails)
  {
    var o := SendEmailSpec(s, broadcastId, contactId, env);
    QueuedRun(s, broadcastId, contactId, env);
    var c := s.contacts[FindId(ContactIds(s.contacts), contactId).value];
    var b := s.broadcasts[FindId(BroadcastIds(s.broadcasts), broadcastId).value];
    var from := FormatFromAddress(b.fromName, b.fromAddress);
    var token := Generate(env.secret, env.now, env.tokenId, env.codec).value;
    var html := env.render(RenderInput(from, b.content, b.subject, ContactEmail(c), token));
    var queued := EmailRecord(NextId(EmailIds(s.emails)), broadcastId, contactId, from, html, EmailStatus.Queued,
                              b.subject, ContactEmail(c), None, []);
    var s0 := s.(emails := s.emails + [queued]);
    var record := TokenRecord(Some(queued.id), Some(env.now + UnsubscribeTokenExpiration));
    var message := OutboundMessage(from, html, b.subject, ContactEmail(c), Some(IdempotencyKey(broadcastId, contactId)));
    assert o == Deliver(s0, |s.emails|, env.tokenId, record, message, env.transport, env.now);
    if env.tokenId !in s.tokens && env.transport.Accepted? {
      var e := MarkSent(queued, env.transport.providerId, env.now);
      MarkSentKeepsPair(queued, env.transport.providerId, env.now);
      assert o.state.emails == s0.emails[|s.emails| := e] == s.emails + [e];
      AppendedEmailKeepsInvariants(s, o.state, e);
    } else {
      assert o.state.emails == s0.emails;
      AppendedEmailKeepsInvariants(s, o.state, queued);
    }
  }

  /** A run keeps the store's ids in order and at most one Email record per
      pair. */
  lemma WorkerKeepsInvariants(s: State, broadcastId: nat, contactId: nat, env: Environment)
    requires Consistent(s) && OnePerPair(s.emails)
    ensures var o := SendEmailSpec(s, broadcastId, contactId, env);
      Consistent(o.state) && OnePerPair(o.state.emails)
  {
    if && FindEmail(s.emails, broadcastId, contactId).None?
       && contactId in ContactIds(s.contacts) && broadcastId in BroadcastIds(s.broadcasts)
       && !MissingSecret(env.secret)
    {
      QueuedRunKeepsInvariants(s, broadcastId, contactId, env);
    } else {
      WorkerWritesNothingEarly(s, broadcastId, contactId, env);
    }
  }
}
