/** The per-field predicates of the row models: siret length, category and
    subtype membership, the phone-number grammar, the role and the email
    rules. All are pure; the Django email validator is a parameter. */
module Fields {
  import opened Values
  import Taxonomy

  /** `len(str(siret)) == 14`: a length check only. */
  predicate SiretIsValid(siret: Option<string>)
  {
    |Str(siret)| == 14
  }

  /** An absent siret prints as "None", four characters, so it is never valid. */
  lemma SiretRule(siret: Option<string>)
    ensures SiretIsValid(siret) <==> siret.Some? && |siret.value| == 14
  {
  }

  predicate AllIn(xs: seq<string>, allowed: seq<string>)
  {
    forall i :: 0 <= i < |xs| ==> xs[i] in allowed
  }

  /** `companyTypes` must be non-empty and drawn from the top-level taxonomy. */
  predicate CompanyTypesAreValid(companyTypes: Option<seq<string>>)
  {
    ListTruthy(companyTypes) && AllIn(companyTypes.value, Taxonomy.CompanyTypes)
  }

  /** A subtype family: an empty (or absent) list is valid; a non-empty one needs
      its parent category in `companyTypes` and every member in `allowed`.
      Testing the parent against an absent `companyTypes` is Python's
      `"X" not in None`, which raises TypeError. */
  function SubtypesAreValid(subtypes: Option<seq<string>>, companyTypes: Option<seq<string>>,
                            parent: string, allowed: seq<string>): Outcome<bool>
  {
    if !ListTruthy(subtypes) then Ok(true)
    else if companyTypes.None? then Raised(TypeError)
    else if parent !in companyTypes.value then Ok(false)
    else Ok(AllIn(subtypes.value, allowed))
  }

  /** The subtype rule in both directions, and when it raises. */
  lemma SubtypeRule(subtypes: Option<seq<string>>, companyTypes: Option<seq<string>>,
                    parent: string, allowed: seq<string>)
    ensures SubtypesAreValid(subtypes, companyTypes, parent, allowed).Raised?
            <==> ListTruthy(subtypes) && companyTypes.None?
    ensures !ListTruthy(subtypes) ==> SubtypesAreValid(subtypes, companyTypes, parent, allowed) == Ok(true)
    ensures SubtypesAreValid(subtypes, companyTypes, parent, allowed) == Ok(true)
            <==> !ListTruthy(subtypes) ||
                 (companyTypes.Some? && parent in companyTypes.value && AllIn(subtypes.value, allowed))
    ensures SubtypesAreValid(subtypes, companyTypes, parent, allowed) == Ok(false)
            <==> ListTruthy(subtypes) && companyTypes.Some? &&
                 (parent !in companyTypes.value || !AllIn(subtypes.value, allowed))
  {
  }

  /** A role is exactly MEMBER or ADMIN. */
  predicate RoleIsValid(role: Option<string>)
  {
    role == Some("MEMBER") || role == Some("ADMIN")
  }

  lemma RoleIsValidIsUserRoles(role: Option<string>)
    ensures RoleIsValid(role) <==> role.Some? && role.value in Taxonomy.UserRoles
  {
  }

  /** The establishment contact email is optional. */
  predicate ContactEmailIsValid(email: Option<string>, emailOk: string -> bool)
  {
    !TextTruthy(email) || emailOk(email.value)
  }

  /** The role email is mandatory. */
  predicate RoleEmailIsValid(email: Option<string>, emailOk: string -> bool)
  {
    TextTruthy(email) && emailOk(email.value)
  }

  // ---------------------------------------------------------------------
  // The phone grammar  ^(0[1-9])(?:[ _.-]?(\d{2})){4}$

  predicate IsDigit(c: char)
  {
    '0' <= c <= '9'
  }

  predicate IsSeparator(c: char)
  {
    c == ' ' || c == '_' || c == '.' || c == '-'
  }

  /** `s` is exactly `k` groups, each an optional separator and two digits. */
  predicate Groups(s: string, k: nat)
    decreases k
  {
    if k == 0 then s == []
    else
      (|s| >= 2 && IsDigit(s[0]) && IsDigit(s[1]) && Groups(s[2..], k - 1)) ||
      (|s| >= 3 && IsSeparator(s[0]) && IsDigit(s[1]) && IsDigit(s[2]) && Groups(s[3..], k - 1))
  }

  /** The whole string is `0`, a digit 1-9, then four groups. */
  predicate PhoneGrammar(s: string)
  {
    |s| >= 2 && s[0] == '0' && '1' <= s[1] <= '9' && Groups(s[2..], 4)
  }

  /** `re.match` of the anchored pattern: Python's `$` also matches just before
      one trailing newline. */
  predicate PhoneMatches(s: string)
  {
    PhoneGrammar(s) || (|s| > 0 && s[|s| - 1] == '\n' && PhoneGrammar(s[..|s| - 1]))
  }

  /** An absent or empty phone number is valid; otherwise it must match. */
  predicate PhoneNumberIsValid(phone: Option<string>)
  {
    !TextTruthy(phone) || PhoneMatches(phone.value)
  }

  /** The digits of a string, in order. */
  function DigitsOf(s: string): (r: string)
    ensures |r| <= |s|
  {
    if s == [] then [] else (if IsDigit(s[0]) then [s[0]] else []) + DigitsOf(s[1..])
  }

  lemma {:induction false} GroupsShape(s: string, k: nat)
    requires Groups(s, k)
    ensures |DigitsOf(s)| == 2 * k && 2 * k <= |s| <= 3 * k
    ensures forall i :: 0 <= i < |s| ==> IsDigit(s[i]) || IsSeparator(s[i])
    decreases k
  {
    if k > 0 {
      if |s| >= 2 && IsDigit(s[0]) && IsDigit(s[1]) && Groups(s[2..], k - 1) {
        GroupsShape(s[2..], k - 1);
        assert s[1..][1..] == s[2..];
        assert forall i :: 2 <= i < |s| ==> s[i] == s[2..][i - 2];
      } else {
        GroupsShape(s[3..], k - 1);
        assert s[1..][1..][1..] == s[3..];
        assert forall i :: 3 <= i < |s| ==> s[i] == s[3..][i - 3];
      }
    }
  }

  /** A number the grammar accepts is ten digits, the first `0` and the second
      non-zero, with at most one separator before each of the four pairs. */
  lemma PhoneGrammarShape(s: string)
    requires PhoneGrammar(s)
    ensures 10 <= |s| <= 14
    ensures |DigitsOf(s)| == 10 && DigitsOf(s)[0] == '0' && '1' <= DigitsOf(s)[1] <= '9'
    ensures forall i :: 0 <= i < |s| ==> IsDigit(s[i]) || IsSeparator(s[i])
  {
    GroupsShape(s[2..], 4);
    assert s[1..][1..] == s[2..];
    assert forall i :: 2 <= i < |s| ==> s[i] == s[2..][i - 2];
  }

  /** Renders pairs of digits, each preceded by its optional separator. */
  function RenderGroups(ds: string, seps: seq<Option<char>>): string
    requires |ds| == 2 * |seps|
  {
    if seps == [] then []
    else
      (match seps[0] case None => "" case Some(c) => [c]) + ds[..2] + RenderGroups(ds[2..], seps[1..])
  }

  /** Every rendering of ten digits starting `0[1-9]`, with any choice of
      separators among ` _.-` before the four pairs, is accepted. */
  lemma {:induction false} RenderGroupsAccepted(ds: string, seps: seq<Option<char>>)
    requires |ds| == 2 * |seps|
    requires forall i :: 0 <= i < |ds| ==> IsDigit(ds[i])
    requires forall i :: 0 <= i < |seps| ==> seps[i].Some? ==> IsSeparator(seps[i].value)
    ensures Groups(RenderGroups(ds, seps), |seps|)
  {
    if seps != [] {
      RenderGroupsAccepted(ds[2..], seps[1..]);
      var rest := RenderGroups(ds[2..], seps[1..]);
      var s := RenderGroups(ds, seps);
      match seps[0]
      case None =>
        assert s == ds[..2] + rest;
        assert s[2..] == rest;
      case Some(c) =>
        assert s == [c] + ds[..2] + rest;
        assert s[3..] == rest;
    }
  }

  lemma PhoneRenderAccepted(ds: string, seps: seq<Option<char>>)
    requires |ds| == 10 && |seps| == 4
    requires ds[0] == '0' && '1' <= ds[1] <= '9'
    requires forall i :: 0 <= i < |ds| ==> IsDigit(ds[i])
    requires forall i :: 0 <= i < |seps| ==> seps[i].Some? ==> IsSeparator(seps[i].value)
    ensures PhoneGrammar(ds[..2] + RenderGroups(ds[2..], seps))
    ensures PhoneNumberIsValid(Some(ds[..2] + RenderGroups(ds[2..], seps)))
    ensures PhoneNumberIsValid(Some(ds[..2] + RenderGroups(ds[2..], seps) + "\n"))
  {
    RenderGroupsAccepted(ds[2..], seps);
    var s := ds[..2] + RenderGroups(ds[2..], seps);
    assert s[2..] == RenderGroups(ds[2..], seps);
    assert (s + "\n")[..|s + "\n"| - 1] == s;
  }

  /** Concrete numbers the grammar accepts: none at all, and ten bare digits. */
  lemma PhoneAcceptedExamples()
    ensures PhoneNumberIsValid(None) && PhoneNumberIsValid(Some(""))
    ensures PhoneNumberIsValid(Some("0123456789"))
  {
    var s := "0123456789";
    assert s[2..] == "23456789" && s[2..][2..] == "456789" && s[2..][2..][2..] == "6789";
    assert s[2..][2..][2..][2..] == "89" && s[2..][2..][2..][2..][2..] == "";
    assert Groups("89", 1);
    assert Groups("6789", 2);
    assert Groups("456789", 3);
  }

  /** A number written in pairs separated by spaces is accepted. */
  lemma PhoneAcceptedSpaced()
    ensures PhoneNumberIsValid(Some("01 23 45 67 89"))
  {
    var s := "01 23 45 67 89";
    assert s[2..] == " 23 45 67 89" && s[2..][3..] == " 45 67 89" && s[2..][3..][3..] == " 67 89";
    assert s[2..][3..][3..][3..] == " 89" && s[2..][3..][3..][3..][3..] == "";
    assert Groups(" 89", 1);
    assert Groups(" 67 89", 2);
    assert Groups(" 45 67 89", 3);
  }

  /** Concrete numbers the grammar rejects: a wrong leading digit, a zero second
      digit, nine digits, two separators in a row. */
  lemma PhoneRejectedExamples()
    ensures !PhoneNumberIsValid(Some("1123456789"))
    ensures !PhoneNumberIsValid(Some("0023456789"))
    ensures !PhoneNumberIsValid(Some("012345678"))
    ensures !PhoneNumberIsValid(Some("01  23456789"))
  {
    PhoneGrammarRejectsShort("012345678");
    assert "01  23456789"[2..] == "  23456789";
    assert !Groups("  23456789", 4);
  }

  lemma PhoneGrammarRejectsShort(s: string)
    requires |s| < 10
    ensures !PhoneMatches(s)
  {
    if PhoneGrammar(s) {
      PhoneGrammarShape(s);
    }
    if |s| > 0 && PhoneGrammar(s[..|s| - 1]) {
      PhoneGrammarShape(s[..|s| - 1]);
    }
  }
}
