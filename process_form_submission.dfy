/** The `beforeChange` hook of the form-submissions collection: it creates or
    updates the submitter's contact, adds the form's tags to that contact, and
    links the submission to it. A failure after the contact write is caught:
    the submission goes ahead unlinked, but the contact write stays. */
module FormSubmissionProcessing {
  import opened Common
  import opened Store
  import opened Dispatcher
  import ContactFields

  /** `CONTACT_FIELD_MAP`: the submission keys copied onto the contact. */
  const ContactFieldMap: seq<string> := [
    "email", "emailOptIn", "firstName", "lastName", "mobileNumber", "mobileOptIn",
    "address", "city", "state", "zip", "country"
  ]

  /** A list of definitions whose names agree one by one with a list of keys
      has that list as its names. */
  lemma NamesAgree(defs: seq<ContactFields.FieldDefinition>, keys: seq<string>)
    requires |defs| == |keys| && forall i :: 0 <= i < |defs| ==> defs[i].name == keys[i]
    ensures ContactFields.Names(defs) == keys
  {
  }

  /** The keys copied are exactly the names of the contact fields a form can
      collect. */
  lemma ContactFieldMapIsFieldNames()
    ensures ContactFieldMap == ContactFields.Names(ContactFields.ContactFieldDefinitions)
  {
    var defs := ContactFields.ContactFieldDefinitions;
    forall i | 0 <= i < |defs| ensures defs[i].name == ContactFieldMap[i] {
    }
    NamesAgree(defs, ContactFieldMap);
  }

  /** The contact data `keys` take from a submission: every listed key whose
      value is not `undefined`, with that value. */
  function ContactData(sub: map<string, Json>, keys: seq<string>): (r: map<string, Json>)
  {
    map k | k in keys && Lookup(sub, k) != Undefined :: Lookup(sub, k)
  }

  /** One more key on the list adds that key when the submission has it. */
  lemma ContactDataSnoc(sub: map<string, Json>, keys: seq<string>, k: string)
    ensures ContactData(sub, keys + [k])
         == if Lookup(sub, k) != Undefined then ContactData(sub, keys)[k := Lookup(sub, k)]
            else ContactData(sub, keys)
  {
    var lhs := ContactData(sub, keys + [k]);
    var rhs := if Lookup(sub, k) != Undefined then ContactData(sub, keys)[k := Lookup(sub, k)]
               else ContactData(sub, keys);
    assert lhs.Keys == rhs.Keys;
  }

  /** `extractContactData`: walks `CONTACT_FIELD_MAP` and copies each key the
      submission defines. */
  method ExtractContactData(sub: map<string, Json>) returns (contactData: map<string, Json>)
    ensures contactData == ContactData(sub, ContactFieldMap)
  {
    contactData := map[];
    for i := 0 to |ContactFieldMap|
      invariant contactData == ContactData(sub, ContactFieldMap[..i])
    {
      var field := ContactFieldMap[i];
      ContactDataSnoc(sub, ContactFieldMap[..i], field);
      assert ContactFieldMap[..i + 1] == ContactFieldMap[..i] + [field];
      if Lookup(sub, field) != Undefined {
        contactData := contactData[field := Lookup(sub, field)];
      }
    }
    assert ContactFieldMap[..|ContactFieldMap|] == ContactFieldMap;
  }

  /** What the extracted data holds: the copied keys, each with the
      submission's own value, and never an `undefined`. */
  lemma ContactDataIsSubmissionSlice(sub: map<string, Json>, k: string)
    ensures k in ContactData(sub, ContactFieldMap)
        <==> k in ContactFieldMap && k in sub && sub[k] != Undefined
    ensures k in ContactData(sub, ContactFieldMap) ==> ContactData(sub, ContactFieldMap)[k] == sub[k]
  {
  }

  /** The entries of `data` among `done` whose value is not blank. */
  function NonBlankAmong(data: map<string, Json>, done: set<string>): (r: map<string, Json>)
  {
    map k | k in done && k in data && !IsBlank(data[k]) :: data[k]
  }

  /** The update written onto an existing contact: the extracted entries
      whose value is neither `undefined`, `null` nor `''`. */
  function UpdateData(contactData: map<string, Json>): (r: map<string, Json>)
    ensures r.Keys <= contactData.Keys
    ensures forall k :: k in r ==> r[k] == contactData[k] && !IsBlank(r[k])
    ensures forall k :: k in contactData && !IsBlank(contactData[k]) ==> k in r
  {
    NonBlankAmong(contactData, contactData.Keys)
  }

  /** The loop over `Object.entries(contactData)` that builds the update. */
  method NonBlankEntries(contactData: map<string, Json>) returns (updateData: map<string, Json>)
    ensures updateData == UpdateData(contactData)
  {
    updateData := map[];
    var rest := contactData.Keys;
    while rest != {}
      invariant rest <= contactData.Keys
      invariant updateData == NonBlankAmong(contactData, contactData.Keys - rest)
      decreases |rest|
    {
      var key :| key in rest;
      var done := contactData.Keys - rest;
      ghost var next := if !IsBlank(contactData[key]) then updateData[key := contactData[key]] else updateData;
      assert NonBlankAmong(contactData, done + {key}).Keys == next.Keys;
      if !IsBlank(contactData[key]) {
        updateData := updateData[key := contactData[key]];
      }
      assert contactData.Keys - (rest - {key}) == done + {key};
      rest := rest - {key};
    }
  }

  /** The fields of a contact the hook creates: the collection's defaults
      (`emailOptIn` and `mobileOptIn` false) under the extracted data. */
  function NewContactFields(contactData: map<string, Json>): (fields: map<string, Json>)
    ensures forall k :: k in contactData ==> k in fields && fields[k] == contactData[k]
    ensures "emailOptIn" !in contactData ==> Lookup(fields, "emailOptIn") == Bool(false)
    ensures "mobileOptIn" !in contactData ==> Lookup(fields, "mobileOptIn") == Bool(false)
  {
    map["emailOptIn" := Bool(false), "mobileOptIn" := Bool(false)] + contactData
  }

  /** The form tags a contact does not have yet, in the form's order. */
  function NewTags(existing: seq<nat>, formTags: seq<nat>): (r: seq<nat>)
    ensures forall t :: t in r <==> t in formTags && t !in existing
    ensures (forall t :: t in formTags ==> t in existing) ==> r == []
  {
    if formTags == [] then []
    else (if formTags[0] in existing then [] else [formTags[0]]) + NewTags(existing, formTags[1..])
  }

  /** A contact after the form's tags are applied: the new ones appended,
      and no write at all when there are none. */
  function ApplyFormTags(c: Contact, formTags: seq<nat>): (r: Contact)
    ensures r.id == c.id && r.fields == c.fields
  {
    var newTags := NewTags(c.tags, formTags);
    if |newTags| > 0 then c.(tags := c.tags + newTags) else c
  }

  /** Applying tags keeps the contact's own tags in front and ends with the
      union of its tags and the form's. */
  lemma ApplyFormTagsMerges(c: Contact, formTags: seq<nat>)
    ensures ApplyFormTags(c, formTags).tags[..|c.tags|] == c.tags
    ensures forall t :: t in ApplyFormTags(c, formTags).tags <==> t in c.tags || t in formTags
  {
    var r := ApplyFormTags(c, formTags);
    assert |r.tags| >= |c.tags|;
    assert r.tags[..|c.tags|] == c.tags;
  }

  /** Applying the same form's tags a second time writes nothing. */
  lemma ApplyFormTagsIdempotent(c: Contact, formTags: seq<nat>)
    ensures ApplyFormTags(ApplyFormTags(c, formTags), formTags) == ApplyFormTags(c, formTags)
  {
    ApplyFormTagsMerges(c, formTags);
  }

  /** A form-submission document as the hook sees it: the form's id (`0`
      when the relation is empty), the submitted data, and the contact
      link. */
  datatype SubmissionData = SubmissionData(form: nat, data: Option<map<string, Json>>, contact: Option<nat>)

  /** What the hook leaves: the store and the document data it returns. */
  datatype HookRun = HookRun(state: State, data: SubmissionData)

  /** Find the contact by email, then merge the non-blank extracted values
      into it, or create it from the extracted data; yields the store and
      the contact's id. */
  function UpsertContact(s: State, email: string, contactData: map<string, Json>): (r: (State, nat))
    ensures r.0 == s.(contacts := r.0.contacts)
    ensures FindContactByEmail(s.contacts, email).Some? ==>
      var i := FindContactByEmail(s.contacts, email).value;
      && |r.0.contacts| == |s.contacts| && r.1 == s.contacts[i].id
      && r.0.contacts[i].id == r.1 && r.0.contacts[i].tags == s.contacts[i].tags
      && forall p :: 0 <= p < |s.contacts| && p != i ==> r.0.contacts[p] == s.contacts[p]
    ensures FindContactByEmail(s.contacts, email).None? ==>
      && |r.0.contacts| == |s.contacts| + 1 && r.0.contacts[..|s.contacts|] == s.contacts
      && r.0.contacts[|s.contacts|].id == r.1 && r.0.contacts[|s.contacts|].tags == []
  {
    match FindContactByEmail(s.contacts, email)
    case Some(i) =>
      var c := s.contacts[i];
      (s.(contacts := s.contacts[i := c.(fields := c.fields + UpdateData(contactData))]), c.id)
    case None =>
      var id := NextId(ContactIds(s.contacts));
      (s.(contacts := s.contacts + [Contact(id, NewContactFields(contactData), [])]), id)
  }

  /** The steps after the contact write: look the form up, apply its tags to
      the contact, and link the document. A missing form id or form ends the
      hook without the link; only the contact's tags may change. */
  function TagAndLink(s1: State, contactId: nat, d: SubmissionData): (r: HookRun)
    ensures r.state == s1.(contacts := r.state.contacts)
    ensures |r.state.contacts| == |s1.contacts|
    ensures forall p :: 0 <= p < |s1.contacts| ==>
      r.state.contacts[p].id == s1.contacts[p].id && r.state.contacts[p].fields == s1.contacts[p].fields
    ensures r.data == d || r.data == d.(contact := Some(contactId))
  {
    if d.form == 0 then HookRun(s1, d)
    else match FindId(FormIds(s1.forms), d.form)
      case None => HookRun(s1, d)
      case Some(fi) =>
        var form := s1.forms[fi];
        var linked := d.(contact := Some(contactId));
        if form.tags.Some? && |form.tags.value| > 0 then
          match FindId(ContactIds(s1.contacts), contactId)
          case None => HookRun(s1, d)
          case Some(ci) =>
            HookRun(s1.(contacts := s1.contacts[ci := ApplyFormTags(s1.contacts[ci], TagIds(form.tags.value))]), linked)
        else HookRun(s1, linked)
  }

  /** The hook: only on create, only with data and a non-empty string
      `email`. */
  function ProcessSpec(s: State, op: Operation, d: SubmissionData): (r: HookRun)
  {
    if op != Create || d.data.None? then HookRun(s, d)
    else
      var email := Lookup(d.data.value, "email");
      if !IsNonEmptyString(email) then HookRun(s, d)
      else
        var (s1, contactId) := UpsertContact(s, email.s, ContactData(d.data.value, ContactFieldMap));
        TagAndLink(s1, contactId, d)
  }

  /** `createProcessFormSubmissionHook`'s hook, run against the store. */
  method ProcessFormSubmission(st: Store, op: Operation, d: SubmissionData) returns (out: SubmissionData)
    modifies st
    ensures HookRun(st.View(), out) == ProcessSpec(old(st.View()), op, d)
  {
    if op != Create || d.data.None? {
      return d;
    }
    var email := Lookup(d.data.value, "email");
    if !IsNonEmptyString(email) {
      return d;
    }
    var contactData := ExtractContactData(d.data.value);
    var contactId: nat;
    var existing := FindContactByEmail(st.contacts, email.s);
    if existing.Some? {
      var c := st.contacts[existing.value];
      var updateData := NonBlankEntries(contactData);
      st.contacts := st.contacts[existing.value := c.(fields := c.fields + updateData)];
      contactId := c.id;
    } else {
      contactId := NextId(ContactIds(st.contacts));
      st.contacts := st.contacts + [Contact(contactId, NewContactFields(contactData), [])];
    }
    if d.form == 0 {
      return d;
    }
    var fi := FindId(FormIds(st.forms), d.form);
    if fi.None? {
      return d;
    }
    var form := st.forms[fi.value];
    if form.tags.Some? && |form.tags.value| > 0 {
      var ci := FindId(ContactIds(st.contacts), contactId);
      if ci.None? {
        return d;
      }
      st.contacts := st.contacts[ci.value := ApplyFormTags(st.contacts[ci.value], TagIds(form.tags.value))];
    }
    return d.(contact := Some(contactId));
  }

  /** The hook touches nothing outside the contacts, adds at most one
      contact, and changes nothing of the document but its contact link. */
  lemma ProcessWritesOnlyContacts(s: State, op: Operation, d: SubmissionData)
    ensures ProcessSpec(s, op, d).state == s.(contacts := ProcessSpec(s, op, d).state.contacts)
    ensures |s.contacts| <= |ProcessSpec(s, op, d).state.contacts| <= |s.contacts| + 1
    ensures ProcessSpec(s, op, d).data == d.(contact := ProcessSpec(s, op, d).data.contact)
  {
  }

  /** Without create, data or an email, the hook is a no-op. */
  lemma ProcessSkipsWithoutEmail(s: State, op: Operation, d: SubmissionData)
    requires op != Create || d.data.None? || !IsNonEmptyString(Lookup(d.data.value, "email"))
    ensures ProcessSpec(s, op, d) == HookRun(s, d)
  {
  }

  /** The contact the hook upserts carries the submitted email and the id it
      reports; every other contact keeps its fields. */
  lemma UpsertContactHasAddress(s: State, email: string, contactData: map<string, Json>)
    requires Lookup(contactData, "email") == Str(email)
    ensures var (s1, id) := UpsertContact(s, email, contactData);
      exists p :: 0 <= p < |s1.contacts| && s1.contacts[p].id == id && HasAddress(s1.contacts[p], email)
  {
    var (s1, id) := UpsertContact(s, email, contactData);
    match FindContactByEmail(s.contacts, email)
    case Some(i) =>
      assert s1.contacts[i].id == id && HasAddress(s1.contacts[i], email);
    case None =>
      var p := |s.contacts|;
      assert s1.contacts[p].id == id && HasAddress(s1.contacts[p], email);
  }

  /** A submission with an email always leaves a contact with that email in
      the store, and when the submission is linked, it is linked to such a
      contact. */
  lemma ProcessLinksToContactWithEmail(s: State, d: SubmissionData)
    requires d.data.Some? && IsNonEmptyString(Lookup(d.data.value, "email")) && d.contact.None?
    ensures var r := ProcessSpec(s, Create, d);
      var email := Lookup(d.data.value, "email").s;
      && (exists p :: 0 <= p < |r.state.contacts| && HasAddress(r.state.contacts[p], email))
      && (r.data.contact.Some? ==>
            exists p :: 0 <= p < |r.state.contacts| && r.state.contacts[p].id == r.data.contact.value
                     && HasAddress(r.state.contacts[p], email))
  {
    var email := Lookup(d.data.value, "email").s;
    var cd := ContactData(d.data.value, ContactFieldMap);
    ContactDataIsSubmissionSlice(d.data.value, "email");
    UpsertContactHasAddress(s, email, cd);
    var (s1, id) := UpsertContact(s, email, cd);
    var p :| 0 <= p < |s1.contacts| && s1.contacts[p].id == id && HasAddress(s1.contacts[p], email);
    var r := ProcessSpec(s, Create, d);
    assert r == TagAndLink(s1, id, d);
    assert r.state.contacts[p].id == id && HasAddress(r.state.contacts[p], email);
  }

  /** The steps after the contact write link the document exactly when its
      form id names a stored form. */
  lemma TagAndLinkLinks(s1: State, contactId: nat, d: SubmissionData)
    requires contactId in ContactIds(s1.contacts)
    ensures TagAndLink(s1, contactId, d).data
         == if d.form != 0 && d.form in FormIds(s1.forms) then d.(contact := Some(contactId)) else d
  {
    if d.form != 0 && d.form in FormIds(s1.forms) {
      var fi := FindId(FormIds(s1.forms), d.form).value;
      var form := s1.forms[fi];
      if form.tags.Some? && |form.tags.value| > 0 {
        assert FindId(ContactIds(s1.contacts), contactId).Some?;
      }
    }
  }

  /** The submission is linked exactly when it is a create with an email and
      a form id that names a stored form. */
  lemma ProcessLinksIff(s: State, op: Operation, d: SubmissionData)
    ensures ProcessSpec(s, op, d).data.contact != d.contact
        ==> ProcessSpec(s, op, d).data.contact.Some?
    ensures ProcessSpec(s, op, d).data.contact.Some? && d.contact.None?
        <==> && op == Create && d.data.Some? && d.contact.None?
             && IsNonEmptyString(Lookup(d.data.value, "email"))
             && d.form != 0 && d.form in FormIds(s.forms)
  {
    if op == Create && d.data.Some? && IsNonEmptyString(Lookup(d.data.value, "email")) {
      var email := Lookup(d.data.value, "email").s;
      var cd := ContactData(d.data.value, ContactFieldMap);
      ContactDataIsSubmissionSlice(d.data.value, "email");
      UpsertContactHasAddress(s, email, cd);
      var (s1, id) := UpsertContact(s, email, cd);
      var p :| 0 <= p < |s1.contacts| && s1.contacts[p].id == id && HasAddress(s1.contacts[p], email);
      assert ContactIds(s1.contacts)[p] == id;
      TagAndLinkLinks(s1, id, d);
      assert s1.forms == s.forms;
      assert ProcessSpec(s, op, d) == TagAndLink(s1, id, d);
    }
  }

  /** An existing contact keeps every field the submission leaves blank and
      takes every non-blank value the submission gives for a copied key. */
  lemma ExistingContactMerge(s: State, email: string, sub: map<string, Json>, k: string)
    requires FindContactByEmail(s.contacts, email).Some?
    ensures var i := FindContactByEmail(s.contacts, email).value;
      var c := UpsertContact(s, email, ContactData(sub, ContactFieldMap)).0.contacts[i];
      && c.id == s.contacts[i].id && c.tags == s.contacts[i].tags
      && (k in ContactFieldMap && k in sub && !IsBlank(sub[k]) ==> k in c.fields && c.fields[k] == sub[k])
      && (!(k in ContactFieldMap && k in sub && !IsBlank(sub[k])) ==> Lookup(c.fields, k) == Lookup(s.contacts[i].fields, k))
  {
    ContactDataIsSubmissionSlice(sub, k);
  }

  /** A contact the hook creates is opted in to email only when the
      submission says so: without an `emailOptIn` value it is `false`. */
  lemma NewContactNotOptedIn(s: State, email: string, sub: map<string, Json>)
    requires FindContactByEmail(s.contacts, email).None?
    requires Lookup(sub, "emailOptIn") == Undefined
    ensures var s1 := UpsertContact(s, email, ContactData(sub, ContactFieldMap)).0;
      |s1.contacts| == |s.contacts| + 1 && !OptedIn(s1.contacts[|s.contacts|])
  {
    ContactDataIsSubmissionSlice(sub, "emailOptIn");
  }

  /** The email lookup reads only the contacts' fields. */
  lemma {:induction false} FindContactByEmailReadsFields(cs: seq<Contact>, ds: seq<Contact>, email: string)
    requires |cs| == |ds| && forall p :: 0 <= p < |cs| ==> cs[p].fields == ds[p].fields
    ensures FindContactByEmail(cs, email) == FindContactByEmail(ds, email)
  {
    if cs != [] {
      FindContactByEmailReadsFields(cs[1..], ds[1..], email);
    }
  }

  /** Merging entries a map already holds changes nothing. */
  lemma MergeHeld(f: map<string, Json>, u: map<string, Json>)
    requires forall k :: k in u ==> k in f && f[k] == u[k]
    ensures f + u == f
  {
    assert (f + u).Keys == f.Keys;
  }

  /** After the first upsert the contact it wrote is the first one with the
      address, and its fields already hold the update. */
  lemma UpsertedContactHoldsUpdate(s: State, email: string, cd: map<string, Json>)
    requires Lookup(cd, "email") == Str(email)
    ensures var s1 := UpsertContact(s, email, cd).0;
      && FindContactByEmail(s1.contacts, email).Some?
      && var p := FindContactByEmail(s1.contacts, email).value;
      && s1.contacts[p].id == UpsertContact(s, email, cd).1
      && forall k :: k in UpdateData(cd) ==> k in s1.contacts[p].fields && s1.contacts[p].fields[k] == UpdateData(cd)[k]
  {
    var s1 := UpsertContact(s, email, cd).0;
    match FindContactByEmail(s.contacts, email)
    case Some(i) =>
      var c := s.contacts[i];
      var c' := c.(fields := c.fields + UpdateData(cd));
      assert HasAddress(c', email);
      FirstMatchKept(s.contacts, i, c', email);
      assert s1.contacts == s.contacts[i := c'];
    case None =>
      var c' := Contact(NextId(ContactIds(s.contacts)), NewContactFields(cd), []);
      assert HasAddress(c', email);
      FirstMatchAppended(s.contacts, c', email);
      assert s1.contacts == s.contacts + [c'];
  }

  /** Replacing the first contact with an address by another with that
      address keeps it the first match. */
  lemma {:induction false} FirstMatchKept(cs: seq<Contact>, i: nat, c': Contact, email: string)
    requires FindContactByEmail(cs, email) == Some(i) && HasAddress(c', email)
    ensures FindContactByEmail(cs[i := c'], email) == Some(i)
  {
    if i > 0 {
      FirstMatchKept(cs[1..], i - 1, c', email);
      assert cs[i := c'][1..] == cs[1..][i - 1 := c'];
    }
  }

  /** Appending a contact with an address no stored contact has makes it
      the first match. */
  lemma {:induction false} FirstMatchAppended(cs: seq<Contact>, c': Contact, email: string)
    requires FindContactByEmail(cs, email).None? && HasAddress(c', email)
    ensures FindContactByEmail(cs + [c'], email) == Some(|cs|)
  {
    if cs != [] {
      FirstMatchAppended(cs[1..], c', email);
      assert (cs + [c'])[1..] == cs[1..] + [c'];
    }
  }

  /** A second upsert with the same data, on a store that differs from the
      first upsert's at most in tags, finds the same contact and writes
      nothing new. */
  lemma UpsertAgain(s: State, email: string, cd: map<string, Json>, t: State)
    requires Lookup(cd, "email") == Str(email)
    requires var s1 := UpsertContact(s, email, cd).0;
      && t == s1.(contacts := t.contacts) && |t.contacts| == |s1.contacts|
      && forall p :: 0 <= p < |s1.contacts| ==>
           t.contacts[p].id == s1.contacts[p].id && t.contacts[p].fields == s1.contacts[p].fields
    ensures UpsertContact(t, email, cd) == (t, UpsertContact(s, email, cd).1)
  {
    var s1 := UpsertContact(s, email, cd).0;
    FindContactByEmailReadsFields(s1.contacts, t.contacts, email);
    UpsertedContactHoldsUpdate(s, email, cd);
    var p := FindContactByEmail(t.contacts, email).value;
    var c := t.contacts[p];
    MergeHeld(c.fields, UpdateData(cd));
    assert t.contacts[p := c.(fields := c.fields + UpdateData(cd))] == t.contacts;
  }

  /** Looking the form up and applying its tags a second time changes
      nothing. */
  lemma TagAndLinkIdempotent(s1: State, contactId: nat, d: SubmissionData)
    ensures TagAndLink(TagAndLink(s1, contactId, d).state, contactId, d) == TagAndLink(s1, contactId, d)
  {
    var r1 := TagAndLink(s1, contactId, d);
    assert ContactIds(r1.state.contacts) == ContactIds(s1.contacts);
    if d.form != 0 {
      match FindId(FormIds(s1.forms), d.form)
      case None =>
      case Some(fi) =>
        var form := s1.forms[fi];
        if form.tags.Some? && |form.tags.value| > 0 {
          match FindId(ContactIds(s1.contacts), contactId)
          case None =>
          case Some(ci) =>
            var tags := TagIds(form.tags.value);
            ApplyFormTagsIdempotent(s1.contacts[ci], tags);
            assert r1.state.contacts[ci := ApplyFormTags(r1.state.contacts[ci], tags)] == r1.state.contacts;
        }
    }
  }

  /** The hook is idempotent: running it again on the same document finds
      the contact it wrote, writes nothing more, and returns the same
      document. */
  lemma ProcessIsIdempotent(s: State, d: SubmissionData)
    ensures ProcessSpec(ProcessSpec(s, Create, d).state, Create, d) == ProcessSpec(s, Create, d)
  {
    if d.data.Some? && IsNonEmptyString(Lookup(d.data.value, "email")) {
      var email := Lookup(d.data.value, "email").s;
      var cd := ContactData(d.data.value, ContactFieldMap);
      ContactDataIsSubmissionSlice(d.data.value, "email");
      var (s1, id) := UpsertContact(s, email, cd);
      var r1 := TagAndLink(s1, id, d);
      assert ProcessSpec(s, Create, d) == r1;
      UpsertAgain(s, email, cd, r1.state);
      TagAndLinkIdempotent(s1, id, d);
      assert ProcessSpec(r1.state, Create, d) == TagAndLink(r1.state, id, d);
    }
  }

  /** Contact ids positive and increasing, as the database keeps them. */
  predicate ContactIdsValid(cs: seq<Contact>)
  {
    Increasing(ContactIds(cs)) && forall i :: 0 <= i < |cs| ==> cs[i].id >= 1
  }

  /** The upsert keeps contact ids valid: it keeps every id or appends the
      next one. */
  lemma UpsertKeepsContactIds(s: State, email: string, cd: map<string, Json>)
    requires ContactIdsValid(s.contacts)
    ensures ContactIdsValid(UpsertContact(s, email, cd).0.contacts)
  {
    match FindContactByEmail(s.contacts, email)
    case Some(i) =>
      var c := s.contacts[i];
      ContactIdsValidReplace(s.contacts, i, c.(fields := c.fields + UpdateData(cd)));
    case None =>
      ContactIdsValidAppend(s.contacts, Contact(NextId(ContactIds(s.contacts)), NewContactFields(cd), []));
  }

  /** Replacing a contact by one with the same id keeps the ids valid. */
  lemma ContactIdsValidReplace(cs: seq<Contact>, i: nat, c': Contact)
    requires ContactIdsValid(cs) && i < |cs| && c'.id == cs[i].id
    ensures ContactIdsValid(cs[i := c'])
  {
    assert ContactIds(cs[i := c']) == ContactIds(cs);
  }

  /** Appending a contact with the next id keeps the ids valid. */
  lemma ContactIdsValidAppend(cs: seq<Contact>, c': Contact)
    requires ContactIdsValid(cs) && c'.id == NextId(ContactIds(cs))
    ensures ContactIdsValid(cs + [c'])
  {
    AppendNextIdIncreasing(ContactIds(cs));
    assert ContactIds(cs + [c']) == ContactIds(cs) + [c'.id];
  }

  /** The hook keeps contact ids valid. */
  lemma ProcessKeepsContactIds(s: State, op: Operation, d: SubmissionData)
    requires ContactIdsValid(s.contacts)
    ensures ContactIdsValid(ProcessSpec(s, op, d).state.contacts)
  {
    if op == Create && d.data.Some? && IsNonEmptyString(Lookup(d.data.value, "email")) {
      var email := Lookup(d.data.value, "email").s;
      var cd := ContactData(d.data.value, ContactFieldMap);
      UpsertKeepsContactIds(s, email, cd);
      var (s1, id) := UpsertContact(s, email, cd);
      var r := TagAndLink(s1, id, d);
      assert ProcessSpec(s, op, d) == r;
      assert ContactIds(r.state.contacts) == ContactIds(s1.contacts);
    }
  }
}
