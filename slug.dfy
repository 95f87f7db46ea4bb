/** The `slug` text field: generation from the title, normalisation and the
    format check (ASCII only). */
module Slug {
  import opened Common
  import opened Strings

  /** `[a-z0-9]` */
  predicate IsAlnum(c: char)
  {
    'a' <= c <= 'z' || '0' <= c <= '9'
  }

  /** `[a-z0-9-]` */
  predicate IsSlugChar(c: char)
  {
    IsAlnum(c) || c == '-'
  }

  predicate AllSlugChars(s: string)
  {
    forall i :: 0 <= i < |s| ==> IsSlugChar(s[i])
  }

  /** No two consecutive `-`. */
  predicate NoDoubleDash(s: string)
  {
    forall i :: 0 <= i < |s| - 1 ==> !(s[i] == '-' && s[i + 1] == '-')
  }

  /** What may follow an alphanumeric character in a well-formed slug. */
  predicate AfterAlnumShape(s: string)
  {
    AllSlugChars(s) && NoDoubleDash(s) && (s == [] || s[|s| - 1] != '-')
  }

  /** A slug as the format check wants it, stated without a matcher: non-empty
      runs of `[a-z0-9]` separated by single dashes. */
  predicate WellFormedSlug(s: string)
  {
    |s| > 0 && s[0] != '-' && AfterAlnumShape(s)
  }

  /** The regular expression `^[a-z0-9]+(?:-[a-z0-9]+)*$`, matched left to right. */
  predicate MatchSlug(s: string)
    decreases |s|, 1
  {
    |s| > 0 && IsAlnum(s[0]) && MatchAfterAlnum(s[1..])
  }

  /** The same expression after its first character: `[a-z0-9]*(?:-[a-z0-9]+)*$`. */
  predicate MatchAfterAlnum(s: string)
    decreases |s|, 0
  {
    s == [] || (IsAlnum(s[0]) && MatchAfterAlnum(s[1..])) || (s[0] == '-' && MatchSlug(s[1..]))
  }

  lemma {:induction false} MatchAfterAlnumIff(s: string)
    ensures MatchAfterAlnum(s) <==> AfterAlnumShape(s)
    decreases |s|
  {
    if s != [] {
      var rest := s[1..];
      MatchAfterAlnumIff(rest);
      assert forall i :: 0 <= i < |rest| ==> rest[i] == s[i + 1];
      if IsAlnum(s[0]) {
        assert AfterAlnumShape(s) <==> AfterAlnumShape(rest);
      } else if s[0] == '-' {
        if rest != [] {
          MatchAfterAlnumIff(rest[1..]);
          assert forall i :: 0 <= i < |rest| - 1 ==> rest[1..][i] == s[i + 2];
          assert AfterAlnumShape(s) <==> IsAlnum(rest[0]) && AfterAlnumShape(rest[1..]);
        }
      } else {
        assert !IsSlugChar(s[0]);
      }
    }
  }

  /** The matcher accepts exactly the well-formed slugs. */
  lemma MatchSlugIff(s: string)
    ensures MatchSlug(s) <==> WellFormedSlug(s)
  {
    if s != [] {
      MatchAfterAlnumIff(s[1..]);
      assert forall i :: 0 <= i < |s| - 1 ==> s[1..][i] == s[i + 1];
    }
  }

  /** The value with its leading `[^a-z0-9]` characters removed. */
  function DropNonAlnum(s: string): (r: string)
    ensures |r| <= |s| && r == s[|s| - |r|..]
    ensures r == [] || IsAlnum(r[0])
  {
    if s == [] || IsAlnum(s[0]) then s else DropNonAlnum(s[1..])
  }

  /** `.replace(/[^a-z0-9]+/g, '-')`: every maximal run of other characters
      becomes one dash. */
  function ReplaceNonAlnumRuns(s: string): (r: string)
    ensures AllSlugChars(r) && NoDoubleDash(r)
    ensures |s| > 0 && IsAlnum(s[0]) ==> |r| > 0 && r[0] == s[0]
    decreases |s|
  {
    if s == [] then []
    else if IsAlnum(s[0]) then [s[0]] + ReplaceNonAlnumRuns(s[1..])
    else "-" + ReplaceNonAlnumRuns(DropNonAlnum(s[1..]))
  }

  /** `.replace(/^-+/, '')` */
  function DropLeadingDashes(s: string): (r: string)
    ensures |r| <= |s| && r == s[|s| - |r|..]
    ensures r == [] || r[0] != '-'
  {
    if s != [] && s[0] == '-' then DropLeadingDashes(s[1..]) else s
  }

  /** `.replace(/-+$/, '')` */
  function DropTrailingDashes(s: string): (r: string)
    ensures |r| <= |s| && r == s[..|r|]
    ensures r == [] || r[|r| - 1] != '-'
  {
    if s != [] && s[|s| - 1] == '-' then DropTrailingDashes(s[..|s| - 1]) else s
  }

  /** The slug generated from a title: lower-cased, each run of characters
      outside `[a-z0-9]` replaced by one dash, then dashes trimmed at both ends. */
  function SlugFromTitle(title: string): (r: string)
    ensures r == [] || MatchSlug(r)
  {
    var a := ReplaceNonAlnumRuns(Lower(title));
    TrimmedSlugIsWellFormed(a);
    DropTrailingDashes(DropLeadingDashes(a))
  }

  /** A slice of a string of slug characters without double dashes is one too. */
  lemma SliceKeepsSlugChars(s: string, i: nat, j: nat)
    requires i <= j <= |s|
    requires AllSlugChars(s) && NoDoubleDash(s)
    ensures AllSlugChars(s[i..j]) && NoDoubleDash(s[i..j])
  {
    var t := s[i..j];
    assert forall k :: 0 <= k < |t| ==> t[k] == s[i + k];
  }

  /** Trimming the dashes off both ends of a string of slug characters
      without double dashes leaves it empty or passing the format check. */
  lemma TrimmedSlugIsWellFormed(a: string)
    requires AllSlugChars(a) && NoDoubleDash(a)
    ensures var c := DropTrailingDashes(DropLeadingDashes(a)); c == [] || MatchSlug(c)
  {
    var b := DropLeadingDashes(a);
    var c := DropTrailingDashes(b);
    SliceKeepsSlugChars(a, |a| - |b|, |a|);
    SliceKeepsSlugChars(b, 0, |c|);
    if c != [] {
      assert c[0] == b[0];
    }
    MatchSlugIff(c);
  }

  /** `.replace(/[^a-z0-9-]/g, '-')` */
  function MapToSlugChars(s: string): (r: string)
    ensures |r| == |s| && AllSlugChars(r)
    ensures forall i :: 0 <= i < |s| ==> (IsSlugChar(s[i]) ==> r[i] == s[i]) && (!IsSlugChar(s[i]) ==> r[i] == '-')
  {
    if s == [] then [] else [if IsSlugChar(s[0]) then s[0] else '-'] + MapToSlugChars(s[1..])
  }

  /** The value with its leading dashes removed. */
  function DropDashes(s: string): (r: string)
    ensures |r| <= |s| && r == s[|s| - |r|..]
    ensures r == [] || r[0] != '-'
  {
    if s != [] && s[0] == '-' then DropDashes(s[1..]) else s
  }

  /** Putting a character in front of a string without double dashes keeps
      it so, unless both are dashes; slug characters stay slug characters. */
  lemma ConsKeepsShape(c: char, rest: string)
    requires NoDoubleDash(rest) && !(c == '-' && rest != [] && rest[0] == '-')
    ensures NoDoubleDash([c] + rest)
    ensures IsSlugChar(c) && AllSlugChars(rest) ==> AllSlugChars([c] + rest)
  {
    var r := [c] + rest;
    assert forall i :: 1 <= i < |r| ==> r[i] == rest[i - 1];
  }

  /** A suffix of a string of slug characters is one too. */
  lemma SuffixKeepsSlugChars(s: string, k: nat)
    requires k <= |s|
    ensures AllSlugChars(s) ==> AllSlugChars(s[k..])
  {
    assert forall i :: 0 <= i < |s| - k ==> s[k..][i] == s[k + i];
  }

  /** `.replace(/-+/g, '-')`: every run of dashes becomes one dash. */
  function CollapseDashes(s: string): (r: string)
    ensures NoDoubleDash(r)
    ensures AllSlugChars(s) ==> AllSlugChars(r)
    ensures |s| > 0 && s[0] != '-' ==> |r| > 0 && r[0] == s[0]
    decreases |s|
  {
    if s == [] then []
    else if s[0] == '-' then
      var d := DropDashes(s[1..]);
      var rest := CollapseDashes(d);
      SuffixKeepsSlugChars(s, 1);
      SuffixKeepsSlugChars(s[1..], |s[1..]| - |d|);
      ConsKeepsShape('-', rest);
      "-" + rest
    else
      var rest := CollapseDashes(s[1..]);
      SuffixKeepsSlugChars(s, 1);
      ConsKeepsShape(s[0], rest);
      [s[0]] + rest
  }

  /** The beforeValidate normalisation of a present value. */
  function NormaliseSlug(v: string): (r: string)
    ensures AllSlugChars(r) && NoDoubleDash(r)
  {
    CollapseDashes(MapToSlugChars(Lower(v)))
  }

  lemma {:induction false} CollapseFixesNoDoubleDash(s: string)
    requires NoDoubleDash(s)
    ensures CollapseDashes(s) == s
    decreases |s|
  {
    if s != [] {
      var rest := s[1..];
      assert NoDoubleDash(rest) by {
        assert forall i :: 0 <= i < |rest| ==> rest[i] == s[i + 1];
      }
      CollapseFixesNoDoubleDash(rest);
      if s[0] == '-' {
        assert rest == [] || rest[0] != '-';
        assert DropDashes(rest) == rest;
      }
    }
  }

  /** Normalising twice is normalising once. */
  lemma NormaliseIdempotent(v: string)
    ensures NormaliseSlug(NormaliseSlug(v)) == NormaliseSlug(v)
  {
    var n := NormaliseSlug(v);
    assert Lower(n) == n;
    assert MapToSlugChars(n) == n;
    CollapseFixesNoDoubleDash(n);
  }

  /** Normalisation keeps a leading dash, which the format check rejects:
      `" a"` becomes `"-a"`. */
  lemma NormaliseCanFailFormat()
    ensures NormaliseSlug(" a") == "-a"
    ensures !MatchSlug("-a")
  {
    var l := Lower(" a");
    assert l[0] == ' ' && l[1] == 'a';
    assert l == " a";
    var m := MapToSlugChars(l);
    assert !IsSlugChar(l[0]) && IsSlugChar(l[1]);
    assert m[0] == '-' && m[1] == 'a';
    assert m == "-a";
    assert DropDashes("a") == "a";
    assert CollapseDashes("a") == "a";
  }

  /** The beforeChange hook: an empty value is generated from a present title;
      any other value is returned as it is. */
  function SlugBeforeChange(value: Option<string>, title: Option<string>): (r: Option<string>)
    ensures (value.Some? && value.value != "") ==> r == value
    ensures (value.None? || value.value == "") && title.Some? && title.value != "" ==>
              r.Some? && (r.value == [] || MatchSlug(r.value))
  {
    if !(value.Some? && value.value != "") && title.Some? && title.value != "" then
      Some(SlugFromTitle(title.value))
    else value
  }

  /** The beforeValidate hook: an empty value on create is kept; otherwise a
      present value is normalised and an absent one stays absent. */
  function SlugBeforeValidate(op: Operation, value: Option<string>): (r: Option<string>)
    ensures op == Create && (value.None? || value.value == "") ==> r == value
    ensures r.Some? <==> value.Some?
    ensures r.Some? ==> AllSlugChars(r.value) && NoDoubleDash(r.value)
  {
    if op == Create && !(value.Some? && value.value != "") then value
    else match value
      case None => None
      case Some(v) => Some(NormaliseSlug(v))
  }

  /** The field's `validate`: empty values pass; others must be well-formed. */
  function ValidateSlug(value: Option<string>): (r: Validation)
    ensures r == Valid <==> value.None? || value.value == "" || WellFormedSlug(value.value)
  {
    if value.Some? && value.value != "" then
      MatchSlugIff(value.value);
      if !MatchSlug(value.value) then
        Invalid("Slug must be lowercase and can only contain letters, numbers, and hyphens.")
      else Valid
    else Valid
  }
}
