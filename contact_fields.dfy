/** The `contactFields` blocks field of a form: which contact fields a form
    collects, and the validator and option filter of that list. */
module ContactFields {
  import opened Common

  datatype FieldDefinition = FieldDefinition(name: string, defaultLabel: string, defaultRequired: bool, placeholder: string)

  /** `CONTACT_FIELD_DEFINITIONS`. */
  const ContactFieldDefinitions: seq<FieldDefinition> := [
    FieldDefinition("email", "Email", true, "Email"),
    FieldDefinition("emailOptIn", "Receive emails", false, "Email Opt-In"),
    FieldDefinition("firstName", "First Name", false, "First Name"),
    FieldDefinition("lastName", "Last Name", false, "Last Name"),
    FieldDefinition("mobileNumber", "Mobile Number", false, "Mobile Number"),
    FieldDefinition("mobileOptIn", "Receive SMS", false, "Mobile Opt-In"),
    FieldDefinition("address", "Address", false, "Address"),
    FieldDefinition("city", "City", false, "City"),
    FieldDefinition("state", "State", false, "State"),
    FieldDefinition("zip", "Zip Code", false, "Zip Code"),
    FieldDefinition("country", "Country", false, "Country")
  ]

  /** `CONTACT_FIELD_DEFINITIONS.map((def) => def.name)`. */
  function Names(defs: seq<FieldDefinition>): (names: seq<string>)
    ensures |names| == |defs| && forall i :: 0 <= i < |defs| ==> names[i] == defs[i].name
  {
    if defs == [] then [] else [defs[0].name] + Names(defs[1..])
  }

  const EmailRequiredMessage := "Email field is required"
  const DuplicateFieldMessage := "Each contact field can only be added once"

  predicate Distinct(s: seq<string>)
  {
    forall i, j :: 0 <= i < j < |s| ==> s[i] != s[j]
  }

  /** `new Set(s)`. */
  function ToSet(s: seq<string>): (r: set<string>)
    ensures forall x :: x in r <==> x in s
  {
    if s == [] then {} else {s[0]} + ToSet(s[1..])
  }

  /** A list has no repeated entry exactly when its head is not in its tail
      and its tail has none. */
  lemma DistinctCons(s: seq<string>)
    requires s != []
    ensures Distinct(s) <==> s[0] !in s[1..] && Distinct(s[1..])
  {
    var rest := s[1..];
    assert forall i :: 0 <= i < |rest| ==> rest[i] == s[i + 1];
    if s[0] in rest {
      var k :| 0 <= k < |rest| && rest[k] == s[0];
      assert s[0] == s[k + 1];
    }
  }

  /** The set of a list has as many elements as the list exactly when the
      list has no repeated entry. */
  lemma {:induction false} SetSizeIffDistinct(s: seq<string>)
    ensures |ToSet(s)| <= |s|
    ensures |ToSet(s)| == |s| <==> Distinct(s)
    decreases |s|
  {
    if s != [] {
      var rest := s[1..];
      SetSizeIffDistinct(rest);
      DistinctCons(s);
      if s[0] in rest {
        assert ToSet(s) == ToSet(rest);
      } else {
        assert s[0] !in ToSet(rest);
        assert |ToSet(s)| == |ToSet(rest)| + 1;
      }
    }
  }

  /** The field's `validate`, on the list of block types: an `email` block
      must be present, checked before the duplicate check, and no type may
      occur twice. An absent or empty list has no `email` block. */
  function ValidateContactFields(value: Option<seq<string>>): (r: Validation)
    ensures r == Valid <==> value.Some? && "email" in value.value && Distinct(value.value)
    ensures (value.None? || "email" !in value.value) ==> r == Invalid(EmailRequiredMessage)
    ensures value.Some? && "email" in value.value && !Distinct(value.value) ==> r == Invalid(DuplicateFieldMessage)
  {
    if value.None? || |value.value| == 0 then Invalid(EmailRequiredMessage)
    else
      var blockTypes := value.value;
      if "email" !in blockTypes then Invalid(EmailRequiredMessage)
      else
        var uniqueTypes := ToSet(blockTypes);
        SetSizeIffDistinct(blockTypes);
        if |blockTypes| != |uniqueTypes| then Invalid(DuplicateFieldMessage)
        else Valid
  }

  /** `t` is `s` with some entries deleted, order kept. */
  predicate IsSubsequence(t: seq<string>, s: seq<string>)
    decreases |s|
  {
    if t == [] then true
    else if s == [] then false
    else if t[0] == s[0] then IsSubsequence(t[1..], s[1..])
    else IsSubsequence(t, s[1..])
  }

  /** `names.filter((name) => !used.has(name))`. */
  function FilterUnused(names: seq<string>, used: set<string>): (r: seq<string>)
    ensures forall x :: x in r <==> x in names && x !in used
    ensures IsSubsequence(r, names)
  {
    if names == [] then []
    else if names[0] !in used then [names[0]] + FilterUnused(names[1..], used)
    else FilterUnused(names[1..], used)
  }

  /** `filterOptions`: the definition names not yet used by a block of the
      form, in definition order. */
  function FilterOptions(existingBlockTypes: seq<string>): (r: seq<string>)
    ensures forall x :: x in r <==> x in Names(ContactFieldDefinitions) && x !in existingBlockTypes
    ensures IsSubsequence(r, Names(ContactFieldDefinitions))
  {
    FilterUnused(Names(ContactFieldDefinitions), ToSet(existingBlockTypes))
  }

  /** The default field list, a single required `email` block, passes. */
  lemma DefaultFieldListValid()
    ensures ValidateContactFields(Some(["email"])) == Valid
  {
  }
}
