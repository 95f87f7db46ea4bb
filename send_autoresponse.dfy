/** The `afterChange` hook of the form-submissions collection that sends the
    form's automatic reply to the submitter. It never fails the submission
    and never changes the document: every error is logged and swallowed. */
module FormAutoresponse {
  import opened Common
  import opened Store
  import opened EmailAddress
  import opened SendEmailWorker

  /** Why no autoresponse is sent; `Send` when one is. */
  datatype Decision =
    | NotCreate | NoFormId | FormMissing | Disabled | NoContact | ContactMissing
    | NoEmail | NoSubject | NoContent | NoFrom | Send(form: Form, to: string)

  /** The hook's checks, in the order it makes them. The form and the
      contact are looked up by id; a missing one makes `findByID` throw,
      which the hook swallows. */
  function Decide(s: State, op: Operation, doc: Submission): (d: Decision)
    ensures d.Send? ==> d.form in s.forms && d.form.id == doc.form && d.form.autoresponse.enabled
    ensures d.Send? ==> (&& d.to != "" && doc.contact.Some?
                         && exists c :: c in s.contacts && c.id == doc.contact.value && ContactEmail(c) == d.to)
    ensures d.Send? ==> && d.form.autoresponse.subject != "" && Truthy(d.form.autoresponse.content)
                        && d.form.autoresponse.fromName != "" && d.form.autoresponse.fromAddress != ""
  {
    if op != Create then NotCreate
    else if doc.form == 0 then NoFormId
    else match FindId(FormIds(s.forms), doc.form)
      case None => FormMissing
      case Some(fi) =>
        var form := s.forms[fi];
        var ar := form.autoresponse;
        if !ar.enabled then Disabled
        else if doc.contact.None? || doc.contact.value == 0 then NoContact
        else match FindId(ContactIds(s.contacts), doc.contact.value)
          case None => ContactMissing
          case Some(ci) =>
            var to := ContactEmail(s.contacts[ci]);
            if to == "" then NoEmail
            else if ar.subject == "" then NoSubject
            else if !Truthy(ar.content) then NoContent
            else if ar.fromName == "" || ar.fromAddress == "" then NoFrom
            else Send(form, to)
  }

  /** The reply: from the form's formatted sender, to the contact, with the
      form's subject and content and no unsubscribe token. */
  function Reply(ar: Autoresponse, to: string, render: RenderInput -> string): (m: OutboundMessage)
    ensures m.to == to && m.subject == ar.subject && m.idempotencyKey.None?
    ensures m.from == FormatFromAddress(ar.fromName, ar.fromAddress)
    ensures m.html == render(RenderInput(m.from, ar.content, ar.subject, to, ""))
  {
    var from := FormatFromAddress(ar.fromName, ar.fromAddress);
    OutboundMessage(from, render(RenderInput(from, ar.content, ar.subject, to, "")), ar.subject, to, None)
  }

  /** The store after the hook: the reply appended to the outbox when one is
      sent. A transport failure is swallowed, so the answer does not
      matter. */
  function AutoresponseSpec(s: State, op: Operation, doc: Submission, render: RenderInput -> string): State
  {
    match Decide(s, op, doc)
    case Send(form, to) => s.(outbox := s.outbox + [Reply(form.autoresponse, to, render)])
    case _ => s
  }

  /** `createSendAutoresponseHook`'s hook, run against the store. */
  method SendAutoresponse(st: Store, op: Operation, doc: Submission, render: RenderInput -> string)
    returns (out: Submission)
    modifies st
    ensures out == doc
    ensures st.View() == AutoresponseSpec(old(st.View()), op, doc, render)
  {
    var decision := Decide(st.View(), op, doc);
    if decision.Send? {
      st.outbox := st.outbox + [Reply(decision.form.autoresponse, decision.to, render)];
    }
    return doc;
  }

  /** The hook writes nothing but the outbox, and at most one message. */
  lemma AutoresponseSendsAtMostOne(s: State, op: Operation, doc: Submission, render: RenderInput -> string)
    ensures AutoresponseSpec(s, op, doc, render) == s.(outbox := AutoresponseSpec(s, op, doc, render).outbox)
    ensures |s.outbox| <= |AutoresponseSpec(s, op, doc, render).outbox| <= |s.outbox| + 1
    ensures AutoresponseSpec(s, op, doc, render).outbox[..|s.outbox|] == s.outbox
  {
    var s' := AutoresponseSpec(s, op, doc, render);
    assert s'.outbox[..|s.outbox|] == s.outbox;
  }

  /** With unique ids, a create linked to a stored contact with an address,
      for a stored form whose autoresponse is enabled and has a subject,
      content, a sender name and a sender address, is answered: to that
      contact's address, with that form's autoresponse. */
  lemma AutoresponseSentWhenComplete(s: State, doc: Submission, fi: nat, ci: nat)
    requires Increasing(FormIds(s.forms)) && Increasing(ContactIds(s.contacts))
    requires fi < |s.forms| && ci < |s.contacts|
    requires doc.form == s.forms[fi].id != 0 && doc.contact == Some(s.contacts[ci].id) && s.contacts[ci].id != 0
    requires ContactEmail(s.contacts[ci]) != ""
    requires var ar := s.forms[fi].autoresponse;
      && ar.enabled && ar.subject != "" && Truthy(ar.content) && ar.fromName != "" && ar.fromAddress != ""
    ensures Decide(s, Create, doc) == Send(s.forms[fi], ContactEmail(s.contacts[ci]))
  {
    FindIdOfIncreasing(FormIds(s.forms), fi);
    FindIdOfIncreasing(ContactIds(s.contacts), ci);
  }
}
