/** Sender formatting and the address check of src/utils/email.ts. */
module EmailAddress {
  import opened Strings

  /** `formatFromAddress`: the name-addr form of section 3.4 of RFC 5322,
      `"name" <address>`, when a display name is given; the bare address
      otherwise. */
  function FormatFromAddress(fromName: string, fromAddress: string): (r: string)
    ensures fromName == "" ==> r == fromAddress
    ensures fromName != "" ==> |r| == |fromName| + |fromAddress| + 5 && r[0] == '"' && r[|r| - 1] == '>'
  {
    if fromName != "" then "\"" + fromName + "\" <" + fromAddress + ">" else fromAddress
  }

  /** Reads a sender back into its display name and address: the inverse of
      `FormatFromAddress`. */
  function ParseFromAddress(r: string): (parts: (string, string))
  {
    if |r| >= 1 && r[0] == '"' then
      var inner := r[1..];
      var k := IndexOf(inner, '"');
      var rest := inner[k..];
      if |rest| >= 4 && rest[..3] == "\" <" && rest[|rest| - 1] == '>' then (inner[..k], rest[3..|rest| - 1])
      else ("", r)
    else ("", r)
  }

  /** The display name and the address can be read back from the formatted
      sender, as long as the name holds no `"` and a bare address does not
      start with one. */
  lemma FormatFromAddressRoundTrip(fromName: string, fromAddress: string)
    requires '"' !in fromName
    requires fromName == "" ==> (|fromAddress| == 0 || fromAddress[0] != '"')
    ensures ParseFromAddress(FormatFromAddress(fromName, fromAddress)) == (fromName, fromAddress)
  {
    var r := FormatFromAddress(fromName, fromAddress);
    if fromName != "" {
      var inner := r[1..];
      assert inner == fromName + "\" <" + fromAddress + ">";
      var k := IndexOf(inner, '"');
      assert inner[|fromName|] == '"';
      assert k == |fromName|;
      var rest := inner[k..];
      assert rest == "\" <" + fromAddress + ">";
      assert rest[..3] == "\" <";
      assert rest[3..|rest| - 1] == fromAddress;
      assert inner[..k] == fromName;
    }
  }

  /** A character `[^\s@]` accepts. */
  predicate NotSpaceOrAt(c: char)
  {
    !IsSpace(c) && c != '@'
  }

  predicate AllNotSpaceOrAt(s: string)
  {
    forall i :: 0 <= i < |s| ==> NotSpaceOrAt(s[i])
  }

  /** A character that ends a `[^\s.@]*` run. */
  predicate IsStop(c: char)
  {
    IsSpace(c) || c == '.' || c == '@'
  }

  /** The length of the longest `[^\s.@]*` prefix. */
  function FirstStop(t: string): (j: nat)
    ensures j <= |t|
    ensures forall i :: 0 <= i < j ==> !IsStop(t[i])
    ensures j < |t| ==> IsStop(t[j])
  {
    if t == [] || IsStop(t[0]) then 0 else 1 + FirstStop(t[1..])
  }

  /** `[^\s@][^\s.@]*\.[^\s@]+$` on the part after the `@`. */
  predicate MatchDomain(d: string)
  {
    && |d| >= 1
    && NotSpaceOrAt(d[0])
    && var t := d[1..];
       var j := FirstStop(t);
       j + 1 < |t| && t[j] == '.' && AllNotSpaceOrAt(t[j + 1..])
  }

  /** `isValidEmail`: the regular expression `^[^\s@]+@[^\s@][^\s.@]*\.[^\s@]+$`,
      matched left to right (ASCII whitespace only). The local part can only
      end at the first `@`, and the `[^\s.@]*` run can only end at the first
      stop character, so no backtracking is needed. */
  predicate IsValidEmail(email: string)
  {
    var k := IndexOf(email, '@');
    && 1 <= k < |email|
    && (forall i :: 0 <= i < k ==> !IsSpace(email[i]))
    && MatchDomain(email[k + 1..])
  }

  /** `k` is the only position of an `@`. */
  ghost predicate OnlyAtSign(email: string, k: int)
  {
    0 <= k < |email| && email[k] == '@' && forall i :: 0 <= i < |email| && i != k ==> email[i] != '@'
  }

  /** A `.` at domain index 1 or later that is not the last character. */
  ghost predicate DotInDomain(email: string, k: int)
  {
    0 <= k && exists j :: k + 2 <= j < |email| - 1 && email[j] == '.'
  }

  /** The shape the expression describes, stated without a matcher: no
      whitespace, exactly one `@` with a non-empty local part before it, and
      a `.` in the domain at domain index 1 or later that is not its last
      character. */
  ghost predicate EmailShape(email: string)
  {
    && (forall i :: 0 <= i < |email| ==> !IsSpace(email[i]))
    && exists k :: 0 < k && OnlyAtSign(email, k) && DotInDomain(email, k)
  }

  lemma ValidEmailHasShape(email: string)
    requires IsValidEmail(email)
    ensures EmailShape(email)
  {
    var k := IndexOf(email, '@');
    var d := email[k + 1..];
    var t := d[1..];
    var j := FirstStop(t);
    assert t == email[k + 2..];
    forall i | 0 <= i < |email|
      ensures !IsSpace(email[i])
      ensures i != k ==> email[i] != '@'
    {
      if i > k + 2 + j {
        assert email[i] == t[j + 1..][i - k - 2 - j - 1];
      } else if i >= k + 2 {
        assert email[i] == t[i - k - 2];
      }
    }
    assert email[k + 2 + j] == '.';
    assert OnlyAtSign(email, k) && DotInDomain(email, k);
  }

  lemma ShapeIsValidEmail(email: string)
    requires EmailShape(email)
    ensures IsValidEmail(email)
  {
    var k :| 0 < k && OnlyAtSign(email, k) && DotInDomain(email, k);
    var j :| k + 2 <= j < |email| - 1 && email[j] == '.';
    var k0 := IndexOf(email, '@');
    assert k0 == k;
    var d := email[k + 1..];
    assert d[0] == email[k + 1];
    var t := d[1..];
    assert t == email[k + 2..];
    assert t[j - k - 2] == '.';
    var j' := FirstStop(t);
    assert j' <= j - k - 2;
    assert t[j'] == email[k + 2 + j'];
    var u := t[j' + 1..];
    forall i | 0 <= i < |u|
      ensures NotSpaceOrAt(u[i])
    {
      assert u[i] == email[k + 2 + j' + 1 + i];
    }
  }

  /** `isValidEmail` holds exactly for strings of the described shape. */
  lemma IsValidEmailCharacterization(email: string)
    ensures IsValidEmail(email) <==> EmailShape(email)
  {
    if IsValidEmail(email) {
      ValidEmailHasShape(email);
    }
    if EmailShape(email) {
      ShapeIsValidEmail(email);
    }
  }

  /** `local@host.rest` passes whenever the three pieces are non-empty and
      free of whitespace and `@`. */
  lemma AcceptsDottedDomain(local: string, host: string, rest: string)
    requires |local| >= 1 && |host| >= 1 && |rest| >= 1
    requires AllNotSpaceOrAt(local) && AllNotSpaceOrAt(host) && AllNotSpaceOrAt(rest)
    ensures IsValidEmail(local + "@" + host + "." + rest)
  {
    var email := local + "@" + host + "." + rest;
    var k := |local|;
    forall i | 0 <= i < |email|
      ensures !IsSpace(email[i])
      ensures i != k ==> email[i] != '@'
    {
      if i < k {
        assert email[i] == local[i];
      } else if k < i < k + 1 + |host| {
        assert email[i] == host[i - k - 1];
      } else if i > k + 1 + |host| {
        assert email[i] == rest[i - k - 2 - |host|];
      }
    }
    assert email[k + 1 + |host|] == '.';
    assert OnlyAtSign(email, k) && DotInDomain(email, k);
    ShapeIsValidEmail(email);
  }

  /** A string without `@` fails. */
  lemma RejectsWithoutAt(email: string)
    requires '@' !in email
    ensures !IsValidEmail(email)
  {
  }

  /** A domain without `.` fails. */
  lemma RejectsDotlessDomain(local: string, domain: string)
    requires '@' !in local && '.' !in domain
    ensures !IsValidEmail(local + "@" + domain)
  {
    var email := local + "@" + domain;
    assert email[|local|] == '@';
    assert IndexOf(email, '@') == |local|;
    assert email[|local| + 1..] == domain;
  }

  lemma ExamplePiecesClean()
    ensures AllNotSpaceOrAt("user") && AllNotSpaceOrAt("user+tag")
    ensures AllNotSpaceOrAt("example") && AllNotSpaceOrAt("com")
  {
  }

  lemma ExamplePiecesJoin()
    ensures "user" + "@" + "example" + "." + "com" == "user@example.com"
    ensures "user+tag" + "@" + "example" + "." + "com" == "user+tag@example.com"
  {
  }

  /** The documented examples: plain and plus-addressed mailboxes pass, a
      string without `@` and a domain without `.` fail. */
  lemma IsValidEmailAcceptsPlain()
    ensures IsValidEmail("user@example.com")
  {
    ExamplePiecesClean();
    ExamplePiecesJoin();
    AcceptsDottedDomain("user", "example", "com");
  }

  lemma IsValidEmailAcceptsPlusTag()
    ensures IsValidEmail("user+tag@example.com")
  {
    ExamplePiecesClean();
    ExamplePiecesJoin();
    AcceptsDottedDomain("user+tag", "example", "com");
  }

  lemma RejectedPiecesClean()
    ensures '@' !in "invalid" && '@' !in "missing" && '.' !in "domain"
  {
  }

  lemma RejectedPiecesJoin()
    ensures "missing" + "@" + "domain" == "missing@domain"
  {
  }

  lemma IsValidEmailRejectsExamples()
    ensures !IsValidEmail("invalid")
    ensures !IsValidEmail("missing@domain")
  {
    RejectedPiecesClean();
    RejectedPiecesJoin();
    RejectsWithoutAt("invalid");
    RejectsDotlessDomain("missing", "domain");
  }
}
