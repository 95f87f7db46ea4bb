/** The send-test-email endpoint: renders a broadcast for one address and
    hands it to the transport, without an unsubscribe token and without
    creating any record. */
module SendTestBroadcastEndpoint {
  import opened Common
  import opened Access
  import opened ApiResponse
  import opened Store
  import opened Request
  import opened EmailAddress
  import opened SendEmailWorker

  /** What a test send depends on besides the store: the email template and
      the transport's answer. */
  datatype TestEnvironment = TestEnvironment(render: RenderInput -> string, transport: SendOutcome)

  /** A rejected check: its error code and message. */
  datatype Rejection = Rejection(code: ErrorCode, message: string)

  /** `validateRequestBody`: a number `broadcastId` and a non-empty
      `testEmail` holding an `@`. */
  function ValidateTestRequest(broadcastId: Json, testEmail: Json): (r: Option<Rejection>)
    ensures r.None? <==> IsNumber(broadcastId) && testEmail.Str? && testEmail.s != "" && '@' in testEmail.s
    ensures r.Some? ==> r.value.code == ValidationError
  {
    if !IsNumber(broadcastId) then Some(Rejection(ValidationError, "broadcastId is required and must be a number"))
    else if !IsNonEmptyString(testEmail) then Some(Rejection(ValidationError, "testEmail is required"))
    else if '@' !in testEmail.s then Some(Rejection(ValidationError, "testEmail must be a valid email address"))
    else None
  }

  /** `validateBroadcastFields`: content, sender name, sender address and
      subject must all be present, checked in that order. */
  function ValidateBroadcastFields(b: Broadcast): (r: Option<Rejection>)
    ensures r.None? <==> Truthy(b.content) && b.fromName != "" && b.fromAddress != "" && b.subject != ""
    ensures r.Some? ==> r.value.code == ValidationError
  {
    if !Truthy(b.content) then Some(Rejection(ValidationError, "Broadcast content is required"))
    else if b.fromName == "" then Some(Rejection(ValidationError, "Broadcast fromName is required"))
    else if b.fromAddress == "" then Some(Rejection(ValidationError, "Broadcast fromAddress is required"))
    else if b.subject == "" then Some(Rejection(ValidationError, "Broadcast subject is required"))
    else None
  }

  /** The message a test send hands to the transport: to the test address,
      with no idempotency key and rendered without an unsubscribe token. */
  function TestMessage(b: Broadcast, testEmail: string, render: RenderInput -> string): (r: OutboundMessage)
    ensures r.to == testEmail && r.idempotencyKey.None? && r.subject == b.subject
    ensures r.html == render(RenderInput(r.from, b.content, b.subject, testEmail, ""))
  {
    var from := FormatFromAddress(b.fromName, b.fromAddress);
    OutboundMessage(from, render(RenderInput(from, b.content, b.subject, testEmail, "")), b.subject, testEmail, None)
  }

  /** `sendTestEmail` once the broadcast is found. A throwing transport is
      caught by the handler as a 500. */
  function SendTo(s: State, b: Broadcast, testEmail: string, env: TestEnvironment): Outcome
  {
    match ValidateBroadcastFields(b)
    case Some(rejection) => Outcome(s, ErrorResponse(rejection.code, rejection.message, 400))
    case None =>
      var s' := s.(outbox := s.outbox + [TestMessage(b, testEmail, env.render)]);
      if env.transport.Rejected? then Outcome(s', ErrorResponse(InternalError, "Error sending test email", 500))
      else Outcome(s', SuccessResponse(MessageData("Test email sent successfully"), 200))
  }

  /** Either the response is decided, or the request names a broadcast and
      an address. */
  datatype Result = Done(outcome: Outcome) | Validated(broadcastId: Json, testEmail: string)

  /** The request checks both versions of the handler share. */
  function CheckRequest(s: State, req: JsonRequest): Result
  {
    if !req.jsonMethod then Done(Outcome(s, ErrorResponse(BadRequest, "No JSON body provided", 400)))
    else if !Authenticated(req.user) then Done(Outcome(s, ErrorResponse(Unauthorized, "Unauthorized", 401)))
    else
      var internal := Done(Outcome(s, ErrorResponse(InternalError, "Error sending test email", 500)));
      if req.body.None? then internal
      else
        var broadcastId := Member(req.body.value, "broadcastId");
        var testEmail := Member(req.body.value, "testEmail");
        if broadcastId.None? || testEmail.None? then internal
        else match ValidateTestRequest(broadcastId.value, testEmail.value)
          case Some(rejection) => Done(Outcome(s, ErrorResponse(rejection.code, rejection.message, 400)))
          case None => Validated(broadcastId.value, testEmail.value.s)
  }

  /** The handler as written: `findByID` throws for a missing broadcast, so
      the 404 branch is never taken and the catch answers 500. */
  function SendTestBroadcastSpecAsWritten(s: State, req: JsonRequest, env: TestEnvironment): Outcome
  {
    match CheckRequest(s, req)
    case Done(o) => o
    case Validated(id, testEmail) =>
      match FindByJsonId(BroadcastIds(s.broadcasts), id)
      case None => Outcome(s, ErrorResponse(InternalError, "Error sending test email", 500))
      case Some(i) => SendTo(s, s.broadcasts[i], testEmail, env)
  }

  /** The handler as intended: a missing broadcast is a 404. */
  function SendTestBroadcastSpec(s: State, req: JsonRequest, env: TestEnvironment): Outcome
  {
    match CheckRequest(s, req)
    case Done(o) => o
    case Validated(id, testEmail) =>
      match FindByJsonId(BroadcastIds(s.broadcasts), id)
      case None => Outcome(s, ErrorResponse(BroadcastNotFound, "Broadcast not found", 404))
      case Some(i) => SendTo(s, s.broadcasts[i], testEmail, env)
  }

  /** The handler against the store. */
  method SendTestBroadcast(st: Store, req: JsonRequest, env: TestEnvironment) returns (response: Response)
    modifies st
    ensures Outcome(st.View(), response) == SendTestBroadcastSpec(old(st.View()), req, env)
  {
    if !req.jsonMethod {
      return ErrorResponse(BadRequest, "No JSON body provided", 400);
    }
    if !Authenticated(req.user) {
      return ErrorResponse(Unauthorized, "Unauthorized", 401);
    }
    var internal := ErrorResponse(InternalError, "Error sending test email", 500);
    if req.body.None? {
      return internal;
    }
    var broadcastId := Member(req.body.value, "broadcastId");
    var testEmail := Member(req.body.value, "testEmail");
    if broadcastId.None? || testEmail.None? {
      return internal;
    }
    var rejection := ValidateTestRequest(broadcastId.value, testEmail.value);
    if rejection.Some? {
      return ErrorResponse(rejection.value.code, rejection.value.message, 400);
    }
    var found := FindByJsonId(BroadcastIds(st.broadcasts), broadcastId.value);
    if found.None? {
      return ErrorResponse(BroadcastNotFound, "Broadcast not found", 404);
    }
    var broadcast := st.broadcasts[found.value];
    var fieldRejection := ValidateBroadcastFields(broadcast);
    if fieldRejection.Some? {
      return ErrorResponse(fieldRejection.value.code, fieldRejection.value.message, 400);
    }
    st.outbox := st.outbox + [TestMessage(broadcast, testEmail.value.s, env.render)];
    if env.transport.Rejected? {
      return internal;
    }
    return SuccessResponse(MessageData("Test email sent successfully"), 200);
  }

  // ---------------------------------------------------------------------
  // Properties.

  /** A test send writes no record: the broadcasts, contacts, emails, tokens,
      jobs, forms and submissions are untouched, and the outbox gains at most
      one message. That message goes to the test address, from the
      broadcast's formatted sender, with its subject, no idempotency key,
      and a rendering without an unsubscribe token. */
  lemma TestSendWritesOnlyOutbox(s: State, req: JsonRequest, env: TestEnvironment)
    ensures var o := SendTestBroadcastSpec(s, req, env);
      && o.state == s.(outbox := o.state.outbox)
      && (o.state.outbox == s.outbox ||
          exists i, testEmail :: 0 <= i < |s.broadcasts| && '@' in testEmail &&
            var b := s.broadcasts[i];
            var from := FormatFromAddress(b.fromName, b.fromAddress);
            && o.state.outbox == s.outbox + [OutboundMessage(from, env.render(RenderInput(from, b.content, b.subject, testEmail, "")),
                                                             b.subject, testEmail, None)]
            && Truthy(b.content) && b.fromName != "" && b.fromAddress != "" && b.subject != "")
  {
    var o := SendTestBroadcastSpec(s, req, env);
    if o.state.outbox != s.outbox {
      var r := CheckRequest(s, req);
      var i := FindByJsonId(BroadcastIds(s.broadcasts), r.broadcastId).value;
      assert o.state.outbox == s.outbox + [TestMessage(s.broadcasts[i], r.testEmail, env.render)];
    }
  }

  /** The answer is 200 exactly when the request is well-formed, from a
      logged-in user, names a broadcast that has content, sender and subject,
      and the transport accepts the message. */
  lemma TestSendSucceedsIff(s: State, req: JsonRequest, env: TestEnvironment)
    ensures var o := SendTestBroadcastSpec(s, req, env);
      o.response.status == 200 <==>
        && req.jsonMethod && req.user.Present? && req.body.Some?
        && Member(req.body.value, "broadcastId").Some? && Member(req.body.value, "testEmail").Some?
        && ValidateTestRequest(Member(req.body.value, "broadcastId").value, Member(req.body.value, "testEmail").value).None?
        && FindByJsonId(BroadcastIds(s.broadcasts), Member(req.body.value, "broadcastId").value).Some?
        && ValidateBroadcastFields(s.broadcasts[FindByJsonId(BroadcastIds(s.broadcasts), Member(req.body.value, "broadcastId").value).value]).None?
        && env.transport.Accepted?
  {
  }

  /** The checks in order, each answering 400 before the next is made and
      none writing anything: the body reader, then the user (401), then the
      number id, the address, the `@`. */
  lemma TestSendRejections(s: State, req: JsonRequest, env: TestEnvironment)
    ensures var o := SendTestBroadcastSpec(s, req, env);
      && (!req.jsonMethod ==> o == Outcome(s, ErrorResponse(BadRequest, "No JSON body provided", 400)))
      && (req.jsonMethod && !req.user.Present? ==> o == Outcome(s, ErrorResponse(Unauthorized, "Unauthorized", 401)))
      && ((req.jsonMethod && req.user.Present? && req.body.Some? && req.body.value.Obj?
           && !IsNumber(Lookup(req.body.value.fields, "broadcastId"))) ==>
            o == Outcome(s, ErrorResponse(ValidationError, "broadcastId is required and must be a number", 400)))
      && ((req.jsonMethod && req.user.Present? && req.body.Some? && req.body.value.Obj?
           && IsNumber(Lookup(req.body.value.fields, "broadcastId"))
           && Lookup(req.body.value.fields, "testEmail").Str?
           && Lookup(req.body.value.fields, "testEmail").s != ""
           && '@' !in Lookup(req.body.value.fields, "testEmail").s) ==>
            o == Outcome(s, ErrorResponse(ValidationError, "testEmail must be a valid email address", 400)))
  {
  }

  /** As written, a well-formed request for a broadcast that does not exist
      is answered 500 INTERNAL_ERROR; the intended answer is 404
      BROADCAST_NOT_FOUND. Both leave the store as it was, and they agree on
      every other request. */
  lemma MissingBroadcastIsInternalError(s: State, req: JsonRequest, env: TestEnvironment, id: nat)
    requires req.jsonMethod && req.user.Present?
    requires req.body == Some(Obj(map["broadcastId" := Num(id), "testEmail" := Str("a@b.c")]))
    requires id !in BroadcastIds(s.broadcasts)
    ensures SendTestBroadcastSpecAsWritten(s, req, env) == Outcome(s, ErrorResponse(InternalError, "Error sending test email", 500))
    ensures SendTestBroadcastSpec(s, req, env) == Outcome(s, ErrorResponse(BroadcastNotFound, "Broadcast not found", 404))
  {
    var fields := map["broadcastId" := Num(id), "testEmail" := Str("a@b.c")];
    assert Lookup(fields, "broadcastId") == Num(id);
    assert Lookup(fields, "testEmail") == Str("a@b.c");
    assert "a@b.c"[1] == '@';
  }

  /** A fractional `broadcastId` passes the `typeof` check but names no
      broadcast: 500 as written, 404 as intended, and nothing is written. */
  lemma FractionalBroadcastIdIsNotFound(s: State, req: JsonRequest, env: TestEnvironment)
    requires req.jsonMethod && req.user.Present?
    requires req.body == Some(Obj(map["broadcastId" := Frac, "testEmail" := Str("a@b.c")]))
    ensures CheckRequest(s, req) == Validated(Frac, "a@b.c")
    ensures SendTestBroadcastSpecAsWritten(s, req, env) == Outcome(s, ErrorResponse(InternalError, "Error sending test email", 500))
    ensures SendTestBroadcastSpec(s, req, env) == Outcome(s, ErrorResponse(BroadcastNotFound, "Broadcast not found", 404))
  {
    var fields := map["broadcastId" := Frac, "testEmail" := Str("a@b.c")];
    assert Lookup(fields, "broadcastId") == Frac;
    assert Lookup(fields, "testEmail") == Str("a@b.c");
    assert "a@b.c"[1] == '@';
  }

  /** The two versions differ only where the broadcast is missing. */
  lemma VersionsAgreeOnFoundBroadcasts(s: State, req: JsonRequest, env: TestEnvironment)
    requires CheckRequest(s, req).Validated? ==>
      FindByJsonId(BroadcastIds(s.broadcasts), CheckRequest(s, req).broadcastId).Some?
    ensures SendTestBroadcastSpecAsWritten(s, req, env) == SendTestBroadcastSpec(s, req, env)
  {
  }
}
