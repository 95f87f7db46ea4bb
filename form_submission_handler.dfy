/** The public form-submission endpoint: checks the body, finds the published
    form, validates the submitted data against the form's contact fields,
    creates the submission (whose hooks upsert the contact and send the
    autoresponse) and answers with the form's confirmation. */
module FormSubmissionEndpoint {
  import opened Common
  import opened ApiResponse
  import opened Store
  import opened Request
  import opened EmailAddress
  import opened SendEmailWorker
  import opened FormSubmissionProcessing
  import opened FormAutoresponse

  /** What the handler depends on besides the store and the request: the
      schema validator's first issue message for a body, the message of a
      body that cannot be read, and the email template. */
  datatype SubmissionEnvironment = SubmissionEnvironment(
    issueMessage: Json -> string,
    readError: string,
    render: RenderInput -> string)

  /** The error of one contact-field block: required and blank. */
  function RequiredError(data: map<string, Json>, block: ContactFieldBlock): (errors: seq<string>)
  {
    if block.required && IsBlank(Lookup(data, block.blockType)) then [block.blockType + " is required"] else []
  }

  /** The errors of the required-field checks, in block order. */
  function RequiredErrors(data: map<string, Json>, blocks: seq<ContactFieldBlock>): (errors: seq<string>)
    ensures |errors| <= |blocks|
    ensures errors == [] <==>
      forall i :: 0 <= i < |blocks| && blocks[i].required ==> !IsBlank(Lookup(data, blocks[i].blockType))
  {
    if blocks == [] then []
    else RequiredErrors(data, blocks[..|blocks| - 1]) + RequiredError(data, blocks[|blocks| - 1])
  }

  /** A non-empty string `email` must match the address pattern. */
  function EmailErrors(data: map<string, Json>): (errors: seq<string>)
  {
    var email := Lookup(data, "email");
    if IsNonEmptyString(email) && !IsValidEmail(email.s) then ["Invalid email format"] else []
  }

  /** `validateSubmissionData`'s errors: none for a form without contact
      fields, otherwise the required-field errors and then the email
      check. */
  function SubmissionErrors(data: map<string, Json>, contactFields: Option<seq<ContactFieldBlock>>): (errors: seq<string>)
    ensures errors == [] <==>
      || contactFields.None? || contactFields.value == []
      || (&& (forall i :: 0 <= i < |contactFields.value| && contactFields.value[i].required
                ==> !IsBlank(Lookup(data, contactFields.value[i].blockType)))
          && (IsNonEmptyString(Lookup(data, "email")) ==> IsValidEmail(Lookup(data, "email").s)))
  {
    if contactFields.None? || contactFields.value == [] then []
    else RequiredErrors(data, contactFields.value) + EmailErrors(data)
  }

  /** `validateSubmissionData`: the loop over the blocks, then the email
      check. */
  method ValidateSubmissionData(data: map<string, Json>, contactFields: Option<seq<ContactFieldBlock>>)
    returns (errors: seq<string>, valid: bool)
    ensures errors == SubmissionErrors(data, contactFields)
    ensures valid <==> errors == []
  {
    if contactFields.None? || contactFields.value == [] {
      return [], true;
    }
    var blocks := contactFields.value;
    errors := [];
    for i := 0 to |blocks|
      invariant errors == RequiredErrors(data, blocks[..i])
    {
      assert blocks[..i + 1][..i] == blocks[..i];
      var field := blocks[i];
      if field.required {
        var value := Lookup(data, field.blockType);
        if value == Undefined || value == Null || value == Str("") {
          errors := errors + [field.blockType + " is required"];
        }
      }
    }
    assert blocks[..|blocks|] == blocks;
    var email := Lookup(data, "email");
    if IsNonEmptyString(email) && !IsValidEmail(email.s) {
      errors := errors + ["Invalid email format"];
    }
    valid := |errors| == 0;
  }

  /** `errors.join(sep)`. */
  function JoinWith(parts: seq<string>, sep: string): (r: string)
    ensures parts == [] ==> r == ""
    ensures parts != [] ==> |r| == SumLengths(parts) + (|parts| - 1) * |sep|
    ensures parts != [] ==> r[|r| - |parts[|parts| - 1]|..] == parts[|parts| - 1]
  {
    if parts == [] then ""
    else if |parts| == 1 then parts[0]
    else JoinWith(parts[..|parts| - 1], sep) + sep + parts[|parts| - 1]
  }

  function SumLengths(parts: seq<string>): nat
  {
    if parts == [] then 0 else SumLengths(parts[..|parts| - 1]) + |parts[|parts| - 1]|
  }

  /** The body schema: an object whose `data` is an object and whose
      `formId` is a string or a number. */
  function ParseBody(body: Json): (r: Option<(map<string, Json>, Json)>)
    ensures r.Some? <==> body.Obj? && Lookup(body.fields, "data").Obj?
                         && (Lookup(body.fields, "formId").Str? || IsNumber(Lookup(body.fields, "formId")))
    ensures r.Some? ==> Obj(r.value.0) == Lookup(body.fields, "data") && r.value.1 == Lookup(body.fields, "formId")
  {
    if !body.Obj? then None
    else
      var data := Lookup(body.fields, "data");
      var formId := Lookup(body.fields, "formId");
      if data.Obj? && (formId.Str? || IsNumber(formId)) then Some((data.fields, formId)) else None
  }

  /** `getPublishedForm`: the form the id names, when it is published; a
      lookup that fails is `null` too. */
  function PublishedForm(s: State, formId: Json): (r: Option<Form>)
    ensures r.Some? ==> r.value in s.forms && r.value.published && JsonIdValue(formId) == Some(r.value.id)
  {
    match FindByJsonId(FormIds(s.forms), formId)
    case None => None
    case Some(i) => if s.forms[i].published then Some(s.forms[i]) else None
  }

  const DefaultConfirmationMessage := "Thank you for your submission."

  /** The confirmation a created submission answers with. */
  datatype Confirmation = RedirectTo(url: string) | Message(message: Json)

  /** `buildConfirmationResponse`: a redirect when the form asks for one, has
      a reference, and a target can be found: its URL, else `/` and the
      referenced document's slug; otherwise its message or the default
      one. */
  function BuildConfirmation(form: Form): (r: Confirmation)
    ensures r.RedirectTo? <==>
      && form.confirmationType == Some(Redirect) && form.reference.Some?
      && (form.url != "" || (form.reference.value.ReferenceDoc? && form.reference.value.slug != ""))
    ensures r.RedirectTo? ==> r.url != "" && (form.url != "" ==> r.url == form.url)
    ensures r.RedirectTo? && form.url == "" ==> r.url == "/" + form.reference.value.slug
    ensures r.Message? ==> Truthy(r.message)
    ensures r.Message? && Truthy(form.confirmationMessage) ==> r.message == form.confirmationMessage
  {
    var redirect :=
      if form.confirmationType == Some(Redirect) && form.reference.Some? then
        if form.url != "" then form.url
        else if form.reference.value.ReferenceDoc? && form.reference.value.slug != "" then "/" + form.reference.value.slug
        else ""
      else "";
    if redirect != "" then RedirectTo(redirect)
    else Message(if Truthy(form.confirmationMessage) then form.confirmationMessage else Str(DefaultConfirmationMessage))
  }

  /** `{ type, redirect }` or `{ type, message }`. */
  function ConfirmationJson(c: Confirmation): Json
  {
    match c
    case RedirectTo(url) => Obj(map["type" := Str("redirect"), "redirect" := Str(url)])
    case Message(message) => Obj(map["type" := Str("message"), "message" := message])
  }

  /** The creation: the processing hook runs before the insert, the
      document gets the next id, and the autoresponse hook runs after it.
      Yields the store and the new document's id. */
  function CreateSubmission(s: State, formId: nat, data: map<string, Json>, render: RenderInput -> string): (r: (State, nat))
  {
    var hook := ProcessSpec(s, Create, SubmissionData(formId, Some(data), None));
    var id := NextId(SubmissionIds(hook.state.submissions));
    var doc := Submission(id, formId, data, hook.data.contact);
    (AutoresponseSpec(hook.state.(submissions := hook.state.submissions + [doc]), Create, doc, render), id)
  }

  /** The response of a created submission. */
  function Created(form: Form, id: nat): Response
  {
    SuccessResponse(Obj(map["confirmation" := ConfirmationJson(BuildConfirmation(form)), "submissionId" := Num(id)]), 201)
  }

  /** The endpoint. */
  function FormSubmissionSpec(s: State, req: JsonRequest, env: SubmissionEnvironment): Outcome
  {
    if !req.jsonMethod then Outcome(s, ErrorResponse(BadRequest, "No JSON body provided", 400))
    else if req.body.None? then Outcome(s, ErrorResponse(InternalError, env.readError, 500))
    else match ParseBody(req.body.value)
      case None =>
        var issue := env.issueMessage(req.body.value);
        Outcome(s, ErrorResponse(ValidationError, if issue != "" then issue else "Invalid request body", 400))
      case Some((data, formId)) =>
        match PublishedForm(s, formId)
        case None => Outcome(s, ErrorResponse(NotFound, "Form not found or not published", 404))
        case Some(form) =>
          var errors := SubmissionErrors(data, form.contactFields);
          if errors != [] then Outcome(s, ErrorResponse(ValidationError, JoinWith(errors, ", "), 400))
          else
            var (s', id) := CreateSubmission(s, form.id, data, env.render);
            Outcome(s', Created(form, id))
  }

  /** `formSubmissionHandler`, run against the store. */
  method FormSubmission(st: Store, req: JsonRequest, env: SubmissionEnvironment) returns (response: Response)
    modifies st
    ensures Outcome(st.View(), response) == FormSubmissionSpec(old(st.View()), req, env)
  {
    if !req.jsonMethod {
      return ErrorResponse(BadRequest, "No JSON body provided", 400);
    }
    if req.body.None? {
      return ErrorResponse(InternalError, env.readError, 500);
    }
    var parsed := ParseBody(req.body.value);
    if parsed.None? {
      var issue := env.issueMessage(req.body.value);
      return ErrorResponse(ValidationError, if issue != "" then issue else "Invalid request body", 400);
    }
    var (data, formId) := parsed.value;
    var found := PublishedForm(st.View(), formId);
    if found.None? {
      return ErrorResponse(NotFound, "Form not found or not published", 404);
    }
    var form := found.value;
    var errors, valid := ValidateSubmissionData(data, form.contactFields);
    if !valid {
      return ErrorResponse(ValidationError, JoinWith(errors, ", "), 400);
    }
    ghost var s0 := st.View();
    var input := SubmissionData(form.id, Some(data), None);
    var processed := ProcessFormSubmission(st, Create, input);
    ProcessWritesOnlyContacts(s0, Create, input);
    var id := NextId(SubmissionIds(st.submissions));
    var doc := Submission(id, form.id, data, processed.contact);
    st.submissions := st.submissions + [doc];
    var _ := SendAutoresponse(st, Create, doc, env.render);
    return Created(form, id);
  }

  /** The creation appends exactly one submission, for the form and with the
      data given, under a fresh id; it leaves broadcasts, emails, tokens,
      jobs and forms alone and adds at most one message to the outbox. */
  lemma CreateSubmissionAppendsOne(s: State, formId: nat, data: map<string, Json>, render: RenderInput -> string)
    ensures var (s', id) := CreateSubmission(s, formId, data, render);
      && |s'.submissions| == |s.submissions| + 1 && s'.submissions[..|s.submissions|] == s.submissions
      && s'.submissions[|s.submissions|].id == id
      && s'.submissions[|s.submissions|].form == formId && s'.submissions[|s.submissions|].data == data
      && (Increasing(SubmissionIds(s.submissions)) ==> Increasing(SubmissionIds(s'.submissions)))
      && s'.broadcasts == s.broadcasts && s'.emails == s.emails && s'.tokens == s.tokens
      && s'.jobs == s.jobs && s'.forms == s.forms
      && |s.outbox| <= |s'.outbox| <= |s.outbox| + 1 && s'.outbox[..|s.outbox|] == s.outbox
  {
    var input := SubmissionData(formId, Some(data), None);
    var hook := ProcessSpec(s, Create, input);
    ProcessWritesOnlyContacts(s, Create, input);
    var id := NextId(SubmissionIds(hook.state.submissions));
    var doc := Submission(id, formId, data, hook.data.contact);
    assert hook.state.submissions == s.submissions;
    var s2 := hook.state.(submissions := s.submissions + [doc]);
    AutoresponseSendsAtMostOne(s2, Create, doc, render);
    var s' := AutoresponseSpec(s2, Create, doc, render);
    assert CreateSubmission(s, formId, data, render) == (s', id);
    assert s'.submissions == s2.submissions && s'.forms == s.forms;
    assert SubmissionIds(s2.submissions) == SubmissionIds(s.submissions) + [id];
    if Increasing(SubmissionIds(s.submissions)) {
      AppendNextIdIncreasing(SubmissionIds(s.submissions));
    }
    assert s2.submissions[..|s.submissions|] == s.submissions;
  }

  /** A submission created for a stored form with a non-zero id, whose data
      has an email, is linked to a stored contact with that email. */
  lemma SubmitterLinked(s: State, fi: nat, data: map<string, Json>, render: RenderInput -> string)
    requires ContactIdsValid(s.contacts) && Increasing(FormIds(s.forms))
    requires fi < |s.forms| && s.forms[fi].id != 0
    requires IsNonEmptyString(Lookup(data, "email"))
    ensures var (s', id) := CreateSubmission(s, s.forms[fi].id, data, render);
      var email := Lookup(data, "email").s;
      && |s'.submissions| == |s.submissions| + 1
      && s'.submissions[|s.submissions|].contact.Some?
      && exists p :: 0 <= p < |s'.contacts| && s'.contacts[p].id == s'.submissions[|s.submissions|].contact.value
                   && HasAddress(s'.contacts[p], email)
  {
    var form := s.forms[fi];
    var email := Lookup(data, "email").s;
    var input := SubmissionData(form.id, Some(data), None);
    var hook := ProcessSpec(s, Create, input);
    ProcessWritesOnlyContacts(s, Create, input);
    assert FormIds(s.forms)[fi] == form.id;
    ProcessLinksIff(s, Create, input);
    ProcessLinksToContactWithEmail(s, input);
    var id := NextId(SubmissionIds(hook.state.submissions));
    var doc := Submission(id, form.id, data, hook.data.contact);
    var s2 := hook.state.(submissions := hook.state.submissions + [doc]);
    AutoresponseSendsAtMostOne(s2, Create, doc, render);
    var s' := AutoresponseSpec(s2, Create, doc, render);
    assert s'.contacts == hook.state.contacts && s'.submissions == s2.submissions;
  }

  /** Creating a submission with an email for a stored form links it to a
      contact, with a valid id, that carries that email; the hook writes
      neither the forms nor the outbox. */
  lemma HookLinksSubmitter(s: State, fi: nat, data: map<string, Json>)
    requires ContactIdsValid(s.contacts)
    requires fi < |s.forms| && s.forms[fi].id != 0
    requires IsNonEmptyString(Lookup(data, "email"))
    ensures var hook := ProcessSpec(s, Create, SubmissionData(s.forms[fi].id, Some(data), None));
      && hook.state.forms == s.forms && hook.state.outbox == s.outbox
      && Increasing(ContactIds(hook.state.contacts))
      && hook.data.contact.Some?
      && exists p :: 0 <= p < |hook.state.contacts| && hook.state.contacts[p].id == hook.data.contact.value
                  && hook.state.contacts[p].id != 0 && ContactEmail(hook.state.contacts[p]) == Lookup(data, "email").s
  {
    var email := Lookup(data, "email").s;
    var input := SubmissionData(s.forms[fi].id, Some(data), None);
    var hook := ProcessSpec(s, Create, input);
    ProcessWritesOnlyContacts(s, Create, input);
    assert FormIds(s.forms)[fi] == s.forms[fi].id;
    ProcessLinksIff(s, Create, input);
    ProcessLinksToContactWithEmail(s, input);
    ProcessKeepsContactIds(s, Create, input);
    var p :| 0 <= p < |hook.state.contacts| && hook.state.contacts[p].id == hook.data.contact.value
             && HasAddress(hook.state.contacts[p], email);
    assert hook.state.contacts[p].id >= 1;
    assert ContactEmail(hook.state.contacts[p]) == email;
  }

  /** When the form's autoresponse is enabled and has a subject, content, a
      sender name and address, a submission with an email gets exactly one
      message: the form's reply, to that email. */
  lemma AutoresponseReachesSubmitter(s: State, fi: nat, data: map<string, Json>, render: RenderInput -> string)
    requires ContactIdsValid(s.contacts) && Increasing(FormIds(s.forms))
    requires fi < |s.forms| && s.forms[fi].id != 0
    requires IsNonEmptyString(Lookup(data, "email"))
    requires var ar := s.forms[fi].autoresponse;
      && ar.enabled && ar.subject != "" && Truthy(ar.content) && ar.fromName != "" && ar.fromAddress != ""
    ensures CreateSubmission(s, s.forms[fi].id, data, render).0.outbox
         == s.outbox + [Reply(s.forms[fi].autoresponse, Lookup(data, "email").s, render)]
  {
    var form := s.forms[fi];
    var email := Lookup(data, "email").s;
    var hook := ProcessSpec(s, Create, SubmissionData(form.id, Some(data), None));
    HookLinksSubmitter(s, fi, data);
    var p :| 0 <= p < |hook.state.contacts| && hook.state.contacts[p].id == hook.data.contact.value
             && hook.state.contacts[p].id != 0 && ContactEmail(hook.state.contacts[p]) == email;
    var doc := Submission(NextId(SubmissionIds(hook.state.submissions)), form.id, data, hook.data.contact);
    var s2 := hook.state.(submissions := hook.state.submissions + [doc]);
    assert s2.contacts == hook.state.contacts && s2.forms == s.forms && s2.outbox == s.outbox;
    AutoresponseSentWhenComplete(s2, doc, fi, p);
    assert AutoresponseSpec(s2, Create, doc, render).outbox == s.outbox + [Reply(form.autoresponse, email, render)];
    assert CreateSubmission(s, form.id, data, render).0 == AutoresponseSpec(s2, Create, doc, render);
  }

  /** A request that is not answered 201 writes nothing. */
  lemma RejectedSubmissionWritesNothing(s: State, req: JsonRequest, env: SubmissionEnvironment)
    ensures FormSubmissionSpec(s, req, env).response.status != 201 ==> FormSubmissionSpec(s, req, env).state == s
  {
  }

  /** A fractional `formId` passes the body schema, as `z.number()` accepts
      it, but names no form: the answer is 404 and nothing is written. */
  lemma FractionalFormIdIsNotFound(s: State, req: JsonRequest, env: SubmissionEnvironment, data: map<string, Json>)
    requires req.jsonMethod
    requires req.body == Some(Obj(map["formId" := Frac, "data" := Obj(data)]))
    ensures ParseBody(req.body.value) == Some((data, Frac))
    ensures FormSubmissionSpec(s, req, env) == Outcome(s, ErrorResponse(NotFound, "Form not found or not published", 404))
  {
    var fields := map["formId" := Frac, "data" := Obj(data)];
    assert Lookup(fields, "formId") == Frac;
    assert Lookup(fields, "data") == Obj(data);
  }

  /** A request answered 201 named a published form by its number id and
      sent data that passes the form's validation; the response carries the
      id of the one submission appended, which holds that form and data. */
  lemma AcceptedSubmission(s: State, req: JsonRequest, env: SubmissionEnvironment)
    requires FormSubmissionSpec(s, req, env).response.status == 201
    ensures req.jsonMethod && req.body.Some? && ParseBody(req.body.value).Some?
    ensures var (data, formId) := ParseBody(req.body.value).value;
      var s' := FormSubmissionSpec(s, req, env).state;
      var body := FormSubmissionSpec(s, req, env).response.body;
      && PublishedForm(s, formId).Some?
      && SubmissionErrors(data, PublishedForm(s, formId).value.contactFields) == []
      && |s'.submissions| == |s.submissions| + 1 && s'.submissions[..|s.submissions|] == s.submissions
      && JsonIdValue(formId) == Some(s'.submissions[|s.submissions|].form) && s'.submissions[|s.submissions|].data == data
      && body.success && body.data.Some? && body.data.value.Obj?
      && Lookup(body.data.value.fields, "submissionId") == Num(s'.submissions[|s.submissions|].id)
  {
    var (data, formId) := ParseBody(req.body.value).value;
    var form := PublishedForm(s, formId).value;
    CreateSubmissionAppendsOne(s, form.id, data, env.render);
  }
}
