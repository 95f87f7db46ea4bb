/** The public unsubscribe endpoint: checks a signed token, follows its record
    to the email it was sent with, and opts the contact with that address out
    of email. */
module UnsubscribeEndpoint {
  import opened Common
  import opened ApiResponse
  import opened Store
  import opened Request
  import opened EmailTypes
  import opened UnsubscribeToken
  import opened SendEmailWorker

  /** `validateToken`: a non-empty string. */
  function ValidateToken(token: Json): (r: Option<string>)
    ensures r.Some? <==> token.Str? && |token.s| > 0
    ensures r.Some? ==> token == Str(r.value)
  {
    if token.Str? && |token.s| > 0 then Some(token.s) else None
  }

  /** `isTokenExpired`: the date is strictly before now. */
  predicate IsTokenExpired(expiresAt: int, now: int)
  {
    expiresAt < now
  }

  /** `unsubscribeContact`: `emailOptIn` set to false. */
  function OptOut(c: Contact): (r: Contact)
    ensures r.id == c.id && r.tags == c.tags
    ensures Lookup(r.fields, "emailOptIn") == Bool(false)
    ensures forall key :: key != "emailOptIn" ==> Lookup(r.fields, key) == Lookup(c.fields, key)
  {
    c.(fields := c.fields["emailOptIn" := Bool(false)])
  }

  /** The endpoint as a function of the store, the request, the server
      secret, the token codec and the clock. It does not look at the user. */
  function UnsubscribeSpec(s: State, req: JsonRequest, secret: Option<string>, c: Codec, now: int): Outcome
  {
    if !req.jsonMethod then Outcome(s, ErrorResponse(BadRequest, "No JSON body provided", 400))
    else
      var internal := Outcome(s, ErrorResponse(InternalError, "Internal Server Error", 500));
      if req.body.None? then internal
      else match Member(req.body.value, "token")
        case None => internal
        case Some(t) =>
          match ValidateToken(t)
          case None => Outcome(s, ErrorResponse(ValidationError, "Token is required", 400))
          case Some(token) =>
            match Verify(secret, now, token, c)
            case None => Outcome(s, ErrorResponse(TokenInvalid, "Invalid or expired token", 400))
            case Some(input) =>
              if input.tokenId !in s.tokens then Outcome(s, ErrorResponse(TokenInvalid, "Invalid token", 400))
              else
                var record := s.tokens[input.tokenId];
                if record.expiresAt.Some? && IsTokenExpired(record.expiresAt.value, now) then
                  Outcome(s, ErrorResponse(TokenExpired, "Token has expired", 400))
                else if record.emailId.None? || record.emailId.value == 0 then
                  Outcome(s, ErrorResponse(ValidationError, "Invalid unsubscribe record", 400))
                else match FindId(EmailIds(s.emails), record.emailId.value)
                  case None => Outcome(s, ErrorResponse(NotFound, "Associated email not found", 404))
                  case Some(ei) =>
                    match FindContactByEmail(s.contacts, s.emails[ei].to)
                    case None => Outcome(s, ErrorResponse(ContactNotFound, "Associated contact not found", 404))
                    case Some(ci) =>
                      if Lookup(s.contacts[ci].fields, "emailOptIn") == Bool(false) then
                        Outcome(s, SuccessResponse(MessageData("Already unsubscribed"), 200))
                      else
                        Outcome(s.(contacts := s.contacts[ci := OptOut(s.contacts[ci])]),
                                SuccessResponse(MessageData("Successfully unsubscribed"), 200))
  }

  /** The handler against the store. */
  method Unsubscribe(st: Store, req: JsonRequest, secret: Option<string>, c: Codec, now: int) returns (response: Response)
    modifies st
    ensures Outcome(st.View(), response) == UnsubscribeSpec(old(st.View()), req, secret, c, now)
  {
    if !req.jsonMethod {
      return ErrorResponse(BadRequest, "No JSON body provided", 400);
    }
    var internal := ErrorResponse(InternalError, "Internal Server Error", 500);
    if req.body.None? {
      return internal;
    }
    var field := Member(req.body.value, "token");
    if field.None? {
      return internal;
    }
    var token := ValidateToken(field.value);
    if token.None? {
      return ErrorResponse(ValidationError, "Token is required", 400);
    }
    var verificationResult := Verify(secret, now, token.value, c);
    if verificationResult.None? {
      return ErrorResponse(TokenInvalid, "Invalid or expired token", 400);
    }
    var tokenId := verificationResult.value.tokenId;
    if tokenId !in st.tokens {
      return ErrorResponse(TokenInvalid, "Invalid token", 400);
    }
    var unsubscribeRecord := st.tokens[tokenId];
    if unsubscribeRecord.expiresAt.Some? && IsTokenExpired(unsubscribeRecord.expiresAt.value, now) {
      return ErrorResponse(TokenExpired, "Token has expired", 400);
    }
    if unsubscribeRecord.emailId.None? || unsubscribeRecord.emailId.value == 0 {
      return ErrorResponse(ValidationError, "Invalid unsubscribe record", 400);
    }
    var email := FindId(EmailIds(st.emails), unsubscribeRecord.emailId.value);
    if email.None? {
      return ErrorResponse(NotFound, "Associated email not found", 404);
    }
    var contact := FindContactByEmail(st.contacts, st.emails[email.value].to);
    if contact.None? {
      return ErrorResponse(ContactNotFound, "Associated contact not found", 404);
    }
    var ci := contact.value;
    if Lookup(st.contacts[ci].fields, "emailOptIn") == Bool(false) {
      return SuccessResponse(MessageData("Already unsubscribed"), 200);
    }
    st.contacts := st.contacts[ci := OptOut(st.contacts[ci])];
    return SuccessResponse(MessageData("Successfully unsubscribed"), 200);
  }

  // ---------------------------------------------------------------------
  // Properties.

  /** The checks that come before any lookup: no body reader gives 400
      BAD_REQUEST, a token that is not a non-empty string 400
      VALIDATION_ERROR, and one that fails verification 400 TOKEN_INVALID. A
      response that wrote is always the 200 "Successfully unsubscribed". */
  lemma UnsubscribeRejections(s: State, req: JsonRequest, secret: Option<string>, c: Codec, now: int)
    ensures var o := UnsubscribeSpec(s, req, secret, c, now);
      && (!req.jsonMethod ==> o == Outcome(s, ErrorResponse(BadRequest, "No JSON body provided", 400)))
      && ((req.jsonMethod && req.body.Some? && req.body.value.Obj?
           && ValidateToken(Lookup(req.body.value.fields, "token")).None?) ==>
            o == Outcome(s, ErrorResponse(ValidationError, "Token is required", 400)))
      && ((req.jsonMethod && req.body.Some? && req.body.value.Obj?
           && ValidateToken(Lookup(req.body.value.fields, "token")).Some?
           && Verify(secret, now, ValidateToken(Lookup(req.body.value.fields, "token")).value, c).None?) ==>
            o == Outcome(s, ErrorResponse(TokenInvalid, "Invalid or expired token", 400)))
      && (o.state != s ==> o.response == SuccessResponse(MessageData("Successfully unsubscribed"), 200))
  {
  }

  /** A record whose date has passed gives 400 TOKEN_EXPIRED even for a token
      that still verifies, and a record without a date never expires. */
  lemma UnsubscribeChecksRecordExpiry(s: State, req: JsonRequest, secret: Option<string>, c: Codec, now: int, token: string)
    requires req.jsonMethod && req.body == Some(Obj(map["token" := Str(token)])) && token != ""
    requires Verify(secret, now, token, c).Some? && Verify(secret, now, token, c).value.tokenId in s.tokens
    ensures var record := s.tokens[Verify(secret, now, token, c).value.tokenId];
      && (record.expiresAt.Some? && record.expiresAt.value < now ==>
            UnsubscribeSpec(s, req, secret, c, now) == Outcome(s, ErrorResponse(TokenExpired, "Token has expired", 400)))
      && (record.expiresAt.None? ==> UnsubscribeSpec(s, req, secret, c, now).response.body.error != Some(ErrorInfo(Code(TokenExpired), "Token has expired")))
  {
    assert Lookup(map["token" := Str(token)], "token") == Str(token);
  }

  /** The only write is one contact's `emailOptIn` set to false: the first
      contact with the address the email was sent to, which was not already
      opted out. */
  lemma UnsubscribeOnlyOptsOut(s: State, req: JsonRequest, secret: Option<string>, c: Codec, now: int)
    requires UnsubscribeSpec(s, req, secret, c, now).state != s
    ensures var o := UnsubscribeSpec(s, req, secret, c, now);
      exists ei, ci :: 0 <= ei < |s.emails| && 0 <= ci < |s.contacts|
        && FindContactByEmail(s.contacts, s.emails[ei].to) == Some(ci)
        && Lookup(s.contacts[ci].fields, "emailOptIn") != Bool(false)
        && o.state == s.(contacts := s.contacts[ci := OptOut(s.contacts[ci])])
  {
    var t := Member(req.body.value, "token").value;
    var input := Verify(secret, now, ValidateToken(t).value, c).value;
    var ei := FindId(EmailIds(s.emails), s.tokens[input.tokenId].emailId.value).value;
    var ci := FindContactByEmail(s.contacts, s.emails[ei].to).value;
    assert 0 <= ei < |s.emails| && 0 <= ci < |s.contacts|;
  }

  /** Opting a contact out keeps every contact's address, so the same
      address finds the same contact. */
  lemma {:induction false} FindContactAfterOptOut(cs: seq<Contact>, ci: nat, address: string)
    requires ci < |cs|
    ensures FindContactByEmail(cs[ci := OptOut(cs[ci])], address) == FindContactByEmail(cs, address)
    decreases |cs|
  {
    var cs' := cs[ci := OptOut(cs[ci])];
    assert HasAddress(cs'[0], address) == HasAddress(cs[0], address);
    if ci > 0 {
      assert cs'[1..] == cs[1..][ci - 1 := OptOut(cs[1..][ci - 1])];
      FindContactAfterOptOut(cs[1..], ci - 1, address);
    } else {
      assert cs'[1..] == cs[1..];
    }
  }

  /** Idempotence: repeating a request that succeeded, at the same time,
      writes nothing and answers "Already unsubscribed". */
  lemma UnsubscribeIdempotent(s: State, req: JsonRequest, secret: Option<string>, c: Codec, now: int)
    requires UnsubscribeSpec(s, req, secret, c, now).response.status == 200
    ensures var s1 := UnsubscribeSpec(s, req, secret, c, now).state;
      UnsubscribeSpec(s1, req, secret, c, now) == Outcome(s1, SuccessResponse(MessageData("Already unsubscribed"), 200))
  {
    var s1 := UnsubscribeSpec(s, req, secret, c, now).state;
    var t := Member(req.body.value, "token").value;
    var input := Verify(secret, now, ValidateToken(t).value, c).value;
    var ei := FindId(EmailIds(s.emails), s.tokens[input.tokenId].emailId.value).value;
    var ci := FindContactByEmail(s.contacts, s.emails[ei].to).value;
    if s1 != s {
      assert s1 == s.(contacts := s.contacts[ci := OptOut(s.contacts[ci])]);
      FindContactAfterOptOut(s.contacts, ci, s.emails[ei].to);
    }
  }

  /** The first contact with the address is found, as the email's contact
      has it. */
  lemma FindsAddressOf(cs: seq<Contact>, k: nat)
    requires k < |cs| && Lookup(cs[k].fields, "email").Str?
    ensures FindContactByEmail(cs, ContactEmail(cs[k])).Some?
    ensures FindContactByEmail(cs, ContactEmail(cs[k])).value <= k
  {
    assert HasAddress(cs[k], ContactEmail(cs[k]));
  }

  /** The success path: a token that verifies, whose record has not expired
      and names an email whose address some contact has, answers 200 and
      leaves that (first) contact opted out. */
  lemma UnsubscribeSucceeds(s: State, req: JsonRequest, secret: Option<string>, c: Codec, now: int,
                            token: string, ei: nat, ci: nat)
    requires req.jsonMethod && req.body == Some(Obj(map["token" := Str(token)])) && token != ""
    requires Verify(secret, now, token, c).Some?
    requires var tokenId := Verify(secret, now, token, c).value.tokenId;
      && tokenId in s.tokens
      && (s.tokens[tokenId].expiresAt.None? || !IsTokenExpired(s.tokens[tokenId].expiresAt.value, now))
      && s.tokens[tokenId].emailId.Some? && s.tokens[tokenId].emailId.value != 0
      && FindId(EmailIds(s.emails), s.tokens[tokenId].emailId.value) == Some(ei)
    requires ei < |s.emails| && FindContactByEmail(s.contacts, s.emails[ei].to) == Some(ci)
    ensures var o := UnsubscribeSpec(s, req, secret, c, now);
      && o.response.status == 200
      && ci < |o.state.contacts| && Lookup(o.state.contacts[ci].fields, "emailOptIn") == Bool(false)
  {
    assert Lookup(map["token" := Str(token)], "token") == Str(token);
  }

  /** The unsubscribe side of the lifecycle, stated over the store the task
      leaves: a token made at `made` for a record pointing at the appended
      email, posted before the record's date. */
  lemma UnsubscribeAfterSend(s: State, s1: State, req: JsonRequest, secret: Option<string>, c: Codec,
                             made: int, later: int, tokenId: string, token: string, recipient: nat)
    requires Increasing(EmailIds(s.emails)) && later - made <= UnsubscribeTokenExpiration
    requires Verify(secret, later, token, c) == Some(TokenInput(made, tokenId))
    requires tokenId in s1.tokens
    requires s1.tokens[tokenId] == TokenRecord(Some(NextId(EmailIds(s.emails))), Some(made + UnsubscribeTokenExpiration))
    requires |s1.emails| == |s.emails| + 1 && s1.emails[..|s.emails|] == s.emails
    requires s1.emails[|s.emails|].id == NextId(EmailIds(s.emails))
    requires recipient < |s1.contacts| && Lookup(s1.contacts[recipient].fields, "email").Str?
    requires s1.emails[|s.emails|].to == ContactEmail(s1.contacts[recipient])
    requires req.jsonMethod && req.body == Some(Obj(map["token" := Str(token)])) && token != ""
    ensures var o := UnsubscribeSpec(s1, req, secret, c, later);
      var ci := FindContactByEmail(s1.contacts, ContactEmail(s1.contacts[recipient]));
      && o.response.status == 200
      && ci.Some? && ci.value <= recipient && ci.value < |o.state.contacts|
      && Lookup(o.state.contacts[ci.value].fields, "emailOptIn") == Bool(false)
  {
    var e := s1.emails[|s.emails|];
    assert s1.emails == s.emails + [e];
    FindAppendedEmail(s.emails, e);
    FindsAddressOf(s1.contacts, recipient);
    var ci := FindContactByEmail(s1.contacts, ContactEmail(s1.contacts[recipient])).value;
    UnsubscribeSucceeds(s1, req, secret, c, later, token, |s.emails|, ci);
  }

  /** An email the send-email task recorded can be unsubscribed from for 30
      days: posting its token answers 200 and leaves the first contact with
      the recipient's address opted out, which is the recipient itself when
      no earlier contact shares the address. */
  lemma SentEmailCanBeUnsubscribed(s: State, broadcastId: nat, contactId: nat, env: Environment,
                                   req: JsonRequest, later: int)
    requires Consistent(s) && ReachesTransport(s, broadcastId, contactId, env) && Sound(env.codec)
    requires later - env.now <= UnsubscribeTokenExpiration
    requires Lookup(s.contacts[FindId(ContactIds(s.contacts), contactId).value].fields, "email").Str?
    requires req.jsonMethod
    requires req.body == Some(Obj(map["token" := Str(Generate(env.secret, env.now, env.tokenId, env.codec).value)]))
    ensures var s1 := SendEmailSpec(s, broadcastId, contactId, env).state;
      var o := UnsubscribeSpec(s1, req, env.secret, env.codec, later);
      var recipient := FindId(ContactIds(s.contacts), contactId).value;
      var ci := FindContactByEmail(s.contacts, ContactEmail(s.contacts[recipient]));
      && o.response.status == 200
      && ci.Some? && ci.value <= recipient && ci.value < |o.state.contacts|
      && Lookup(o.state.contacts[ci.value].fields, "emailOptIn") == Bool(false)
  {
    var s1 := SendEmailSpec(s, broadcastId, contactId, env).state;
    var token := Generate(env.secret, env.now, env.tokenId, env.codec).value;
    var recipient := FindId(ContactIds(s.contacts), contactId).value;
    assert token != "" by {
      GeneratedTokenHasTwoParts(env.secret, env.now, env.tokenId, env.codec);
    }
    WorkerLinksTokenToEmail(s, broadcastId, contactId, env, later);
    assert s1.contacts == s.contacts;
    assert s1.emails[|s.emails|].to == ContactEmail(s1.contacts[recipient]);
    UnsubscribeAfterSend(s, s1, req, env.secret, env.codec, env.now, later, env.tokenId, token, recipient);
  }
}
