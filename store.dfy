/** The documents the plugin reads and writes, and the store that holds them:
    the `broadcasts`, `contacts`, `emails`, `emailUnsubscribeTokens`, `forms`
    and `formSubmissions` collections, the job queue, and the messages handed
    to the email transport. Documents of a collection are kept in the order of
    their ids, which is the order `sort: 'id'` returns them in. */
module Store {
  import opened Common
  import opened EmailTypes

  /** The broadcast `status` select. */
  datatype BroadcastStatus = Draft | Sending | Failed | Sent

  /** The hidden `meta` group of a broadcast: the dispatcher's progress. */
  datatype Meta = Meta(contactsCount: int, processedCount: int, lastProcessedContactId: int)

  /** A relationship value as a query may return it: the related id, or the
      related document populated (of which only the id is read). */
  datatype TagRef = TagId(id: nat) | TagDoc(docId: nat)
  {
    /** `typeof t === 'object' ? t.id : t` */
    function Id(): nat
    {
      match this
      case TagId(i) => i
      case TagDoc(i) => i
    }
  }

  /** A Broadcast document. An absent text field is the empty string. */
  datatype Broadcast = Broadcast(
    id: nat,
    name: string,
    status: BroadcastStatus,
    content: Json,
    fromName: string,
    fromAddress: string,
    subject: string,
    to: string,
    tags: Option<seq<TagRef>>,
    meta: Meta)

  /** A Contact document: its id, its tag ids, and its other fields by name
      (`email`, `emailOptIn`, `firstName`, ...). */
  datatype Contact = Contact(id: nat, fields: map<string, Json>, tags: seq<nat>)

  /** `emailOptIn === true` */
  predicate OptedIn(c: Contact)
  {
    Lookup(c.fields, "emailOptIn") == Bool(true)
  }

  /** The contact's `email` field is the address. */
  predicate HasAddress(c: Contact, address: string)
  {
    Lookup(c.fields, "email") == Str(address)
  }

  /** A query for contacts whose `email` equals the address, first match: the
      first contact, in id order, with the address. */
  function FindContactByEmail(cs: seq<Contact>, address: string): (r: Option<nat>)
    ensures r.Some? ==> r.value < |cs| && HasAddress(cs[r.value], address)
    ensures r.Some? ==> forall k :: 0 <= k < r.value ==> !HasAddress(cs[k], address)
    ensures r.None? <==> forall k :: 0 <= k < |cs| ==> !HasAddress(cs[k], address)
  {
    if cs == [] then None
    else if HasAddress(cs[0], address) then Some(0)
    else match FindContactByEmail(cs[1..], address)
      case None => None
      case Some(k) => Some(k + 1)
  }

  /** An emailUnsubscribeTokens document, without its `id`, which keys it. */
  datatype TokenRecord = TokenRecord(emailId: Option<nat>, expiresAt: Option<int>)

  /** A queued job. */
  datatype Job = Job(task: string, queue: string, broadcastId: nat, contactId: nat)

  /** What the email transport was asked to deliver. */
  datatype OutboundMessage = OutboundMessage(
    from: string, html: string, subject: string, to: string, idempotencyKey: Option<string>)

  /** What an email template is rendered from: the formatted sender, the
      rich-text content (its HTML, markdown and plain-text renderings are
      functions of it), the subject, the recipient and the unsubscribe token
      (`""` when there is none). */
  datatype RenderInput = RenderInput(from: string, content: Json, subject: string, to: string, token: string)

  /** A contact-field block of a form. */
  datatype ContactFieldBlock = ContactFieldBlock(blockType: string, required: bool)

  datatype ConfirmationType = ShowMessage | Redirect

  /** A form's `reference` value: the populated document (its slug; empty
      when absent) or a bare id. */
  datatype ReferenceValue = ReferenceDoc(slug: string) | ReferenceId(refId: nat)

  /** A form's `autoresponse` group; an absent group is a disabled one. */
  datatype Autoresponse = Autoresponse(
    enabled: bool, subject: string, content: Json, fromName: string, fromAddress: string)

  /** A Form document. */
  datatype Form = Form(
    id: nat,
    published: bool,
    contactFields: Option<seq<ContactFieldBlock>>,
    confirmationType: Option<ConfirmationType>,
    confirmationMessage: Json,
    reference: Option<ReferenceValue>,
    url: string,
    tags: Option<seq<TagRef>>,
    autoresponse: Autoresponse)

  /** A FormSubmission document. */
  datatype Submission = Submission(id: nat, form: nat, data: map<string, Json>, contact: Option<nat>)

  /** The whole store as a value. */
  datatype State = State(
    broadcasts: seq<Broadcast>,
    contacts: seq<Contact>,
    emails: seq<EmailRecord>,
    tokens: map<string, TokenRecord>,
    jobs: seq<Job>,
    outbox: seq<OutboundMessage>,
    forms: seq<Form>,
    submissions: seq<Submission>)

  /** Ids in strictly increasing order. */
  predicate Increasing(ids: seq<int>)
  {
    forall i, j :: 0 <= i < j < |ids| ==> ids[i] < ids[j]
  }

  function BroadcastIds(bs: seq<Broadcast>): (ids: seq<nat>)
    ensures |ids| == |bs| && forall i :: 0 <= i < |bs| ==> ids[i] == bs[i].id
  {
    if bs == [] then [] else [bs[0].id] + BroadcastIds(bs[1..])
  }

  function ContactIds(cs: seq<Contact>): (ids: seq<nat>)
    ensures |ids| == |cs| && forall i :: 0 <= i < |cs| ==> ids[i] == cs[i].id
  {
    if cs == [] then [] else [cs[0].id] + ContactIds(cs[1..])
  }

  function EmailIds(es: seq<EmailRecord>): (ids: seq<nat>)
    ensures |ids| == |es| && forall i :: 0 <= i < |es| ==> ids[i] == es[i].id
  {
    if es == [] then [] else [es[0].id] + EmailIds(es[1..])
  }

  function FormIds(fs: seq<Form>): (ids: seq<nat>)
    ensures |ids| == |fs| && forall i :: 0 <= i < |fs| ==> ids[i] == fs[i].id
  {
    if fs == [] then [] else [fs[0].id] + FormIds(fs[1..])
  }

  function SubmissionIds(ss: seq<Submission>): (ids: seq<nat>)
    ensures |ids| == |ss| && forall i :: 0 <= i < |ss| ==> ids[i] == ss[i].id
  {
    if ss == [] then [] else [ss[0].id] + SubmissionIds(ss[1..])
  }

  /** `findByID`: the position of the document with id `id`, if any. */
  function FindId(ids: seq<nat>, id: nat): (r: Option<nat>)
    ensures r.Some? ==> r.value < |ids| && ids[r.value] == id
    ensures r.Some? ==> forall i :: 0 <= i < r.value ==> ids[i] != id
    ensures r.None? <==> id !in ids
  {
    if ids == [] then None
    else if ids[0] == id then Some(0)
    else match FindId(ids[1..], id)
      case None => None
      case Some(k) => Some(k + 1)
  }

  /** With unique ids, looking up the id at position `i` finds `i`. */
  lemma FindIdOfIncreasing(ids: seq<nat>, i: nat)
    requires Increasing(ids) && i < |ids|
    ensures FindId(ids, ids[i]) == Some(i)
  {
  }

  /** An id appended to a list without it is found at the end. */
  lemma FindIdAppendFresh(ids: seq<nat>, id: nat)
    requires id !in ids
    ensures FindId(ids + [id], id) == Some(|ids|)
  {
    assert (ids + [id])[|ids|] == id;
  }

  /** The id the database gives the next document of a collection: one more
      than the largest, starting at 1. */
  function NextId(ids: seq<nat>): (n: nat)
    ensures n >= 1
    ensures Increasing(ids) ==> forall i :: 0 <= i < |ids| ==> ids[i] < n
  {
    if ids == [] then 1 else ids[|ids| - 1] + 1
  }

  /** What the database guarantees about ids: positive and unique, and kept
      in increasing order. */
  predicate Consistent(s: State)
  {
    && Increasing(BroadcastIds(s.broadcasts))
    && Increasing(ContactIds(s.contacts))
    && Increasing(EmailIds(s.emails))
    && Increasing(FormIds(s.forms))
    && (forall i :: 0 <= i < |s.contacts| ==> s.contacts[i].id >= 1)
  }

  /** With increasing ids, the next id is not taken. */
  lemma NextIdFresh(ids: seq<nat>)
    requires Increasing(ids)
    ensures NextId(ids) !in ids
  {
  }

  /** Appending a document under `NextId` keeps the ids increasing. */
  lemma AppendNextIdIncreasing(ids: seq<nat>)
    requires Increasing(ids)
    ensures Increasing(ids + [NextId(ids)])
  {
  }

  /** The store, updated in place by the handlers. */
  class Store {
    var broadcasts: seq<Broadcast>
    var contacts: seq<Contact>
    var emails: seq<EmailRecord>
    var tokens: map<string, TokenRecord>
    var jobs: seq<Job>
    var outbox: seq<OutboundMessage>
    var forms: seq<Form>
    var submissions: seq<Submission>

    function View(): State
      reads this
    {
      State(broadcasts, contacts, emails, tokens, jobs, outbox, forms, submissions)
    }

    constructor (s: State)
      ensures View() == s
    {
      broadcasts, contacts, emails, tokens := s.broadcasts, s.contacts, s.emails, s.tokens;
      jobs, outbox, forms, submissions := s.jobs, s.outbox, s.forms, s.submissions;
    }
  }
}
