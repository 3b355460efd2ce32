/** Registration input checks of the app-management framework: workspace-slug derivation,
    payload validation with tagged errors, and template-default merging. Pure functions. */
module Validation {
  import opened Wrappers
  import opened JsText
  import opened JsValues
  import opened Errors
  import opened Records

  const SlugEmptyMessage := "Unable to derive workspace slug from application name."
  const UrlTypeMessage := "Repository URL must be a string."
  const UrlProtocolMessage := "Repository URL must start with https, http, git, or ssh."
  const PortMessage := "Port must be an integer between 1 and 65535."
  const StringMessage := "Expected string value."
  const NameRequiredMessage := "Application name is required."

  /** `normalizeName`: the trimmed string, or `''` for anything that is not a string. */
  function NormalizeName(name: JsValue): (r: string)
    ensures !name.JsString? ==> r == ""
    ensures name.JsString? ==> |r| <= |name.s|
    ensures r == [] || (!IsJsWhitespace(r[0]) && !IsJsWhitespace(r[|r| - 1]))
  {
    if name.JsString? then Trim(name.s) else ""
  }

  // ---------------------------------------------------------------- workspace slugs

  predicate IsAlnum(c: char) { 'a' <= c <= 'z' || '0' <= c <= '9' }

  predicate IsSlugChar(c: char) { IsAlnum(c) || c == '-' }

  predicate HasAlnum(s: string) { exists i :: 0 <= i < |s| && IsAlnum(s[i]) }

  predicate SlugChars(s: string) { forall i :: 0 <= i < |s| ==> IsSlugChar(s[i]) }

  predicate NoDoubleHyphen(s: string) {
    forall i :: 0 <= i < |s| - 1 ==> !(s[i] == '-' && s[i + 1] == '-')
  }

  /** What a derived slug looks like: non-empty, only `[a-z0-9-]`, no hyphen at either end
      and never two hyphens in a row. */
  predicate IsSlug(s: string) {
    s != [] && SlugChars(s) && s[0] != '-' && s[|s| - 1] != '-' && NoDoubleHyphen(s)
  }

  function DropNonAlnum(s: string): (r: string)
    ensures |r| <= |s| && r == s[|s| - |r|..]
    ensures r == [] || IsAlnum(r[0])
    ensures forall i :: 0 <= i < |s| - |r| ==> !IsAlnum(s[i])
  {
    if s != [] && !IsAlnum(s[0]) then
      var r := DropNonAlnum(s[1..]);
      assert s[1..][|s| - 1 - |r|..] == s[|s| - |r|..];
      assert forall i :: 1 <= i < |s| - |r| ==> s[i] == s[1..][i - 1];
      r
    else s
  }

  /** Dropping a prefix without letters or digits keeps exactly the letters and digits. */
  lemma HasAlnumOfSuffix(s: string, k: nat)
    requires k <= |s|
    requires forall i :: 0 <= i < k ==> !IsAlnum(s[i])
    ensures HasAlnum(s[k..]) <==> HasAlnum(s)
  {
    if HasAlnum(s) {
      var i :| 0 <= i < |s| && IsAlnum(s[i]);
      assert s[k..][i - k] == s[i];
    }
    if HasAlnum(s[k..]) {
      var j :| 0 <= j < |s[k..]| && IsAlnum(s[k..][j]);
      assert s[k + j] == s[k..][j];
    }
  }

  /** `.replace(/[^a-z0-9]+/g, '-')`: every maximal run of other characters becomes one hyphen. */
  function ReplaceNonAlnumRuns(s: string): (r: string)
    ensures SlugChars(r) && NoDoubleHyphen(r)
    ensures (r == []) == (s == [])
    ensures s != [] && IsAlnum(s[0]) ==> IsAlnum(r[0])
    decreases |s|
  {
    if s == [] then []
    else if IsAlnum(s[0]) then [s[0]] + ReplaceNonAlnumRuns(s[1..])
    else "-" + ReplaceNonAlnumRuns(DropNonAlnum(s[1..]))
  }

  /** The replacement keeps a letter or digit exactly when the input has one. */
  lemma {:induction false} ReplaceNonAlnumRunsKeepsAlnum(s: string)
    ensures HasAlnum(ReplaceNonAlnumRuns(s)) <==> HasAlnum(s)
    decreases |s|
  {
    if s == [] {
    } else if IsAlnum(s[0]) {
      assert IsAlnum(ReplaceNonAlnumRuns(s)[0]);
    } else {
      var rest := DropNonAlnum(s[1..]);
      var tail := ReplaceNonAlnumRuns(rest);
      ReplaceNonAlnumRunsKeepsAlnum(rest);
      HasAlnumOfSuffix(s, |s| - |rest|);
      assert s[|s| - |rest|..] == rest;
      assert ReplaceNonAlnumRuns(s) == "-" + tail;
      HasAlnumOfSuffix("-" + tail, 1);
      assert ("-" + tail)[1..] == tail;
    }
  }

  function DropLeadingHyphens(s: string): (r: string)
    ensures |r| <= |s| && r == s[|s| - |r|..]
    ensures r == [] || r[0] != '-'
    ensures forall i :: 0 <= i < |s| - |r| ==> s[i] == '-'
  {
    if s != [] && s[0] == '-' then DropLeadingHyphens(s[1..]) else s
  }

  function DropTrailingHyphens(s: string): (r: string)
    ensures |r| <= |s| && r == s[..|r|]
    ensures r == [] || r[|r| - 1] != '-'
    ensures forall i :: |r| <= i < |s| ==> s[i] == '-'
  {
    if s != [] && s[|s| - 1] == '-' then DropTrailingHyphens(s[..|s| - 1]) else s
  }

  /** Hyphens removed from either end leave the slug alphabet and the letters and digits. */
  lemma TrimHyphensFacts(s: string, t: string, r: string)
    requires |t| <= |s| && t == s[|s| - |t|..] && forall i :: 0 <= i < |s| - |t| ==> s[i] == '-'
    requires |r| <= |t| && r == t[..|r|] && forall i :: |r| <= i < |t| ==> t[i] == '-'
    requires r == [] || r[0] != '-'
    ensures SlugChars(s) ==> SlugChars(r)
    ensures NoDoubleHyphen(s) ==> NoDoubleHyphen(r)
    ensures SlugChars(s) ==> (r == [] <==> !HasAlnum(s))
  {
    var k := |s| - |t|;
    assert forall i :: 0 <= i < |t| ==> t[i] == s[k + i];
    assert forall i :: 0 <= i < |r| ==> r[i] == s[k + i];
    if SlugChars(s) {
      if r == [] {
        forall i | 0 <= i < |s| ensures s[i] == '-' {
          if i >= k { assert s[i] == t[i - k]; }
        }
      } else {
        assert IsAlnum(s[k]) by { assert r[0] != '-' && IsSlugChar(r[0]) && r[0] == s[k]; }
      }
    }
    if NoDoubleHyphen(s) {
      forall i | 0 <= i < |r| - 1 ensures !(r[i] == '-' && r[i + 1] == '-') {
        assert r[i] == s[k + i] && r[i + 1] == s[k + i + 1];
      }
    }
  }

  /** `.replace(/^-+|-+$/g, '')`: strip the hyphens at both ends. */
  function TrimHyphens(s: string): (r: string)
    ensures r == [] || (r[0] != '-' && r[|r| - 1] != '-')
    ensures SlugChars(s) ==> SlugChars(r)
    ensures NoDoubleHyphen(s) ==> NoDoubleHyphen(r)
    ensures SlugChars(s) ==> (r == [] <==> !HasAlnum(s))
  {
    var t := DropLeadingHyphens(s);
    var r := DropTrailingHyphens(t);
    assert r == [] || r[0] == t[0];
    TrimHyphensFacts(s, t, r);
    r
  }

  lemma NoDoubleHyphenOfTail(s: string)
    requires s != [] && NoDoubleHyphen(s)
    ensures NoDoubleHyphen(s[1..])
  {
    forall i | 0 <= i < |s[1..]| - 1 ensures !(s[1..][i] == '-' && s[1..][i + 1] == '-') {
      assert s[1..][i] == s[i + 1] && s[1..][i + 1] == s[i + 2];
    }
  }

  /** `.replace(/-{2,}/g, '-')`: every run of hyphens becomes one hyphen. */
  function CollapseHyphenRuns(s: string): (r: string)
    ensures NoDoubleHyphen(s) ==> r == s
    decreases |s|
  {
    if s == [] then []
    else if s[0] == '-' then
      var rest := DropLeadingHyphens(s[1..]);
      assert NoDoubleHyphen(s) ==> rest == s[1..] && NoDoubleHyphen(s[1..]) by {
        if NoDoubleHyphen(s) { NoDoubleHyphenOfTail(s); }
      }
      "-" + CollapseHyphenRuns(rest)
    else
      assert NoDoubleHyphen(s) ==> NoDoubleHyphen(s[1..]) by {
        if NoDoubleHyphen(s) { NoDoubleHyphenOfTail(s); }
      }
      [s[0]] + CollapseHyphenRuns(s[1..])
  }

  /** `deriveWorkspaceSlug`: lower-case the normalized name and run the three replacements;
      an empty result is the `slug-empty` validation error. */
  function DeriveWorkspaceSlug(name: JsValue): (r: Result<string, AppError>)
    ensures r.Ok? ==> IsSlug(r.value)
    ensures r.Err? <==> !HasAlnum(LowerCase(NormalizeName(name)))
    ensures r.Err? ==> r.error == Invalid(SlugEmptyMessage, NameField, SlugEmpty)
  {
    var replaced := ReplaceNonAlnumRuns(LowerCase(NormalizeName(name)));
    ReplaceNonAlnumRunsKeepsAlnum(LowerCase(NormalizeName(name)));
    var trimmed := TrimHyphens(replaced);
    var slug := CollapseHyphenRuns(trimmed);
    if slug == [] then Err(Invalid(SlugEmptyMessage, NameField, SlugEmpty)) else Ok(slug)
  }

  /** The slug pipeline leaves a slug untouched at every stage. */
  lemma {:induction false} ReplaceNonAlnumRunsOfSlugText(s: string)
    requires SlugChars(s) && NoDoubleHyphen(s)
    ensures ReplaceNonAlnumRuns(s) == s
  {
    if s != [] {
      NoDoubleHyphenOfTail(s);
      ReplaceNonAlnumRunsOfSlugText(s[1..]);
      if !IsAlnum(s[0]) {
        assert s[1..] == [] || IsAlnum(s[1]);
        assert DropNonAlnum(s[1..]) == s[1..];
      }
    }
  }

  /** Idempotence: a slug derives to itself, so deriving from a derived slug changes nothing. */
  lemma SlugDerivesToItself(s: string)
    requires IsSlug(s)
    ensures DeriveWorkspaceSlug(JsString(s)) == Ok(s)
  {
    assert !IsJsWhitespace(s[0]) && !IsJsWhitespace(s[|s| - 1]);
    assert NormalizeName(JsString(s)) == s;
    LowerCaseOfLower(s);
    ReplaceNonAlnumRunsOfSlugText(s);
    ReplacedSlugIsKept(JsString(s));
  }

  /** When the first replacement already yields a slug, the other two keep it as it is. */
  lemma ReplacedSlugIsKept(name: JsValue)
    requires IsSlug(ReplaceNonAlnumRuns(LowerCase(NormalizeName(name))))
    ensures DeriveWorkspaceSlug(name) == Ok(ReplaceNonAlnumRuns(LowerCase(NormalizeName(name))))
  {
    var s := ReplaceNonAlnumRuns(LowerCase(NormalizeName(name)));
    assert DropLeadingHyphens(s) == s;
    assert DropTrailingHyphens(s) == s;
  }

  lemma DeriveWorkspaceSlugIdempotent(name: JsValue)
    requires DeriveWorkspaceSlug(name).Ok?
    ensures DeriveWorkspaceSlug(JsString(DeriveWorkspaceSlug(name).value)) == DeriveWorkspaceSlug(name)
  {
    SlugDerivesToItself(DeriveWorkspaceSlug(name).value);
  }

  predicate IsAsciiAlnum(c: char) { 'A' <= c <= 'Z' || IsAlnum(c) }

  lemma {:induction false} LowerCaseOfAsciiAlnum(s: string)
    requires forall i :: 0 <= i < |s| ==> IsAsciiAlnum(s[i])
    ensures |LowerCase(s)| == |s|
    ensures forall i :: 0 <= i < |s| ==> IsAlnum(LowerCase(s)[i])
  {
    if s != [] {
      LowerCaseOfAsciiAlnum(s[1..]);
    }
  }

  /** One non-alphanumeric character between two alphanumeric words becomes one hyphen. */
  lemma {:induction false} ReplaceOneSeparator(a: string, c: char, b: string)
    requires forall i :: 0 <= i < |a| ==> IsAlnum(a[i])
    requires !IsAlnum(c)
    requires b != [] && IsAlnum(b[0]) && SlugChars(b) && NoDoubleHyphen(b)
    ensures ReplaceNonAlnumRuns(a + [c] + b) == a + "-" + b
  {
    if a == [] {
      assert a + [c] + b == [c] + b;
      assert ([c] + b)[1..] == b;
      assert DropNonAlnum(b) == b;
      ReplaceNonAlnumRunsOfSlugText(b);
    } else {
      assert (a + [c] + b)[0] == a[0];
      assert (a + [c] + b)[1..] == a[1..] + [c] + b;
      ReplaceOneSeparator(a[1..], c, b);
      assert a + "-" + b == [a[0]] + (a[1..] + "-" + b);
    }
  }

  /** Two non-empty alphanumeric words joined by one hyphen form a slug. */
  lemma HyphenJoinIsSlug(a: string, b: string)
    requires a != [] && b != []
    requires forall i :: 0 <= i < |a| ==> IsAlnum(a[i])
    requires forall i :: 0 <= i < |b| ==> IsAlnum(b[i])
    ensures IsSlug(a + "-" + b)
  {
    var j := a + "-" + b;
    assert j[0] == a[0] && j[|j| - 1] == b[|b| - 1];
    forall i | 0 <= i < |j| ensures IsSlugChar(j[i]) {
      if i < |a| { assert j[i] == a[i]; }
      else if i > |a| { assert j[i] == b[i - |a| - 1]; }
    }
    forall i | 0 <= i < |j| - 1 ensures !(j[i] == '-' && j[i + 1] == '-') {
      if i < |a| { assert j[i] == a[i]; }
      else if i == |a| { assert j[i + 1] == b[0]; }
      else { assert j[i] == b[i - |a| - 1]; }
    }
  }

  lemma LowerCaseOfJoin(a: string, c: char, b: string)
    requires c == ' ' || c == '-'
    ensures LowerCase(a + [c] + b) == LowerCase(a) + [c] + LowerCase(b)
  {
    assert a + [c] + b == a + ([c] + b);
    LowerCaseConcat(a, [c] + b);
    LowerCaseConcat([c], b);
    assert LowerCase([c]) == [c];
  }

  lemma NormalizeJoinedWords(a: string, b: string, c: char)
    requires a != [] && b != []
    requires forall i :: 0 <= i < |a| ==> IsAsciiAlnum(a[i])
    requires forall i :: 0 <= i < |b| ==> IsAsciiAlnum(b[i])
    requires c == ' ' || c == '-'
    ensures NormalizeName(JsString(a + [c] + b)) == a + [c] + b
  {
    var name := a + [c] + b;
    assert name[0] == a[0] && name[|name| - 1] == b[|b| - 1];
    assert IsAsciiAlnum(a[0]) && IsAsciiAlnum(b[|b| - 1]);
    NormalizeKeepsWordEnds(name);
  }

  lemma NormalizeKeepsWordEnds(name: string)
    requires name != [] && IsAsciiAlnum(name[0]) && IsAsciiAlnum(name[|name| - 1])
    ensures NormalizeName(JsString(name)) == name
  {
    assert !IsJsWhitespace(name[0]) && !IsJsWhitespace(name[|name| - 1]);
  }

  /** Lower-casing two words joined by a blank or a hyphen. */
  lemma LowerCaseOfJoinedWords(a: string, b: string, c: char)
    requires a != [] && b != []
    requires forall i :: 0 <= i < |a| ==> IsAsciiAlnum(a[i])
    requires forall i :: 0 <= i < |b| ==> IsAsciiAlnum(b[i])
    requires c == ' ' || c == '-'
    ensures LowerCase(NormalizeName(JsString(a + [c] + b))) == LowerCase(a) + [c] + LowerCase(b)
    ensures LowerCase(a) != [] && forall i :: 0 <= i < |LowerCase(a)| ==> IsAlnum(LowerCase(a)[i])
    ensures LowerCase(b) != [] && forall i :: 0 <= i < |LowerCase(b)| ==> IsAlnum(LowerCase(b)[i])
  {
    NormalizeJoinedWords(a, b, c);
    LowerCaseOfJoin(a, c, b);
    LowerCaseOfAsciiAlnum(a);
    LowerCaseOfAsciiAlnum(b);
  }

  lemma ReplaceOfJoinedWords(a: string, b: string, c: char)
    requires a != [] && b != []
    requires forall i :: 0 <= i < |a| ==> IsAsciiAlnum(a[i])
    requires forall i :: 0 <= i < |b| ==> IsAsciiAlnum(b[i])
    requires c == ' ' || c == '-'
    ensures ReplaceNonAlnumRuns(LowerCase(NormalizeName(JsString(a + [c] + b)))) == LowerCase(a) + "-" + LowerCase(b)
    ensures IsSlug(LowerCase(a) + "-" + LowerCase(b))
  {
    LowerCaseOfJoinedWords(a, b, c);
    ReplaceOfAlnumJoin(LowerCase(a), LowerCase(b), c);
    HyphenJoinIsSlug(LowerCase(a), LowerCase(b));
  }

  /** A blank or a hyphen between two lower-case alphanumeric words becomes one hyphen. */
  lemma ReplaceOfAlnumJoin(a: string, b: string, c: char)
    requires a != [] && b != []
    requires forall i :: 0 <= i < |a| ==> IsAlnum(a[i])
    requires forall i :: 0 <= i < |b| ==> IsAlnum(b[i])
    requires c == ' ' || c == '-'
    ensures ReplaceNonAlnumRuns(a + [c] + b) == a + "-" + b
  {
    if c == ' ' {
      assert SlugChars(b) && NoDoubleHyphen(b);
      ReplaceOneSeparator(a, c, b);
    } else {
      assert a + [c] + b == a + "-" + b;
      HyphenJoinIsSlug(a, b);
      ReplaceNonAlnumRunsOfSlugText(a + "-" + b);
    }
  }

  /** Two words joined by a blank or by a hyphen give the same slug, whatever their case:
      "Test App" and "Test-App" collide on `test-app`. */
  lemma BlankAndHyphenCollide(a: string, b: string, c: char)
    requires a != [] && b != []
    requires forall i :: 0 <= i < |a| ==> IsAsciiAlnum(a[i])
    requires forall i :: 0 <= i < |b| ==> IsAsciiAlnum(b[i])
    requires c == ' ' || c == '-'
    ensures DeriveWorkspaceSlug(JsString(a + [c] + b)) == Ok(LowerCase(a) + "-" + LowerCase(b))
  {
    ReplaceOfJoinedWords(a, b, c);
    ReplacedSlugIsKept(JsString(a + [c] + b));
  }

  /** A character that neither is nor lower-cases to an ASCII letter or digit. */
  predicate IsNonWordChar(c: char) { !IsAsciiAlnum(c) && c != '\U{0130}' && c != '\U{212A}' }

  /** A name made only of punctuation and blanks (`"  !!! "`) has no slug. */
  lemma NoSlugWithoutWordChars(name: string)
    requires forall i :: 0 <= i < |name| ==> IsNonWordChar(name[i])
    ensures DeriveWorkspaceSlug(JsString(name)).Err?
  {
    var t := NormalizeName(JsString(name));
    TrimKeepsNonWordChars(name);
    LowerCaseOfLower(t);
    assert !HasAlnum(t);
  }

  /** Every character `trim` keeps was in the string. */
  lemma TrimKeepsNonWordChars(s: string)
    requires forall i :: 0 <= i < |s| ==> IsNonWordChar(s[i])
    ensures forall i :: 0 <= i < |Trim(s)| ==> IsNonWordChar(Trim(s)[i])
  {
    var front := TrimStart(s);
    assert forall i :: 0 <= i < |front| ==> front[i] == s[|s| - |front| + i];
    var t := TrimEnd(front);
    assert forall i :: 0 <= i < |t| ==> t[i] == front[i];
  }

  // ---------------------------------------------------------------- payload validation

  /** `/^(https?|git|ssh):/i`. */
  predicate HasRepositoryProtocol(url: string) {
    StartsWithIgnoringCase(url, "http:") || StartsWithIgnoringCase(url, "https:")
    || StartsWithIgnoringCase(url, "git:") || StartsWithIgnoringCase(url, "ssh:")
  }

  predicate StartsWithIgnoringCase(s: string, prefix: string) {
    |prefix| <= |s| && SameIgnoringAsciiCase(s[..|prefix|], prefix)
  }

  /** `validateRepositoryUrl`. */
  function ValidateRepositoryUrl(url: JsValue): (r: Result<Option<string>, AppError>)
    ensures IsNullish(url) ==> r == Ok(None)
    ensures !IsNullish(url) && !url.JsString? ==> r == Err(Invalid(UrlTypeMessage, RepositoryUrlField, InvalidType))
    ensures url.JsString? && Trim(url.s) == "" ==> r == Ok(None)
    ensures (url.JsString? && Trim(url.s) != "" && !HasRepositoryProtocol(Trim(url.s)))
              ==> r == Err(Invalid(UrlProtocolMessage, RepositoryUrlField, InvalidProtocol))
    ensures r.Ok? && r.value.Some? ==> url.JsString? && r.value.value == Trim(url.s) && r.value.value != ""
                                       && HasRepositoryProtocol(r.value.value)
    ensures r.Ok? && r.value.Some? ==> IsTrimmedText(r.value.value)
  {
    if IsNullish(url) then Ok(None)
    else if !url.JsString? then Err(Invalid(UrlTypeMessage, RepositoryUrlField, InvalidType))
    else
      var trimmed := Trim(url.s);
      if trimmed == "" then Ok(None)
      else if !HasRepositoryProtocol(trimmed) then Err(Invalid(UrlProtocolMessage, RepositoryUrlField, InvalidProtocol))
      else Ok(Some(trimmed))
  }

  /** `validatePort`: `Number(port)` must be an integer in 1..65535. */
  function ValidatePort(port: JsValue): (r: Result<Option<int>, AppError>)
    ensures IsNullish(port) ==> r == Ok(None)
    ensures !IsNullish(port) ==> (r.Ok? <==> ToNumber(port).IsInteger() && 0.0 < ToNumber(port).value <= 65535.0)
    ensures r.Ok? && r.value.Some? ==> 1 <= r.value.value <= 65535 && ToNumber(port) == Finite(r.value.value as real)
    ensures r.Err? ==> r.error == Invalid(PortMessage, PortField, InvalidPort)
  {
    if IsNullish(port) then Ok(None)
    else
      var numeric := ToNumber(port);
      if !numeric.IsInteger() || numeric.value <= 0.0 || numeric.value > 65535.0 then
        Err(Invalid(PortMessage, PortField, InvalidPort))
      else Ok(Some(numeric.value.Floor))
  }

  /** A port wrapped in arrays converts through their string forms: `[8080]` and `[[8080]]`
      are port 8080, while `[8080, 8081]`, whose string form is `8080,8081`, is refused. */
  lemma WrappedPortsAreAccepted()
    ensures ValidatePort(JsArray([JsNumber(8080.0)])) == Ok(Some(8080))
    ensures ValidatePort(JsArray([JsArray([JsNumber(8080.0)])])) == Ok(Some(8080))
    ensures ValidatePort(JsArray([JsNumber(8080.0), JsNumber(8081.0)])).Err?
  {
    assert (8080.0).Floor == 8080;
    var one := JsArray([JsNumber(8080.0)]);
    assert ToNumber(one) == Finite(8080.0);
    assert ToNumber(JsArray([one])) == Finite(8080.0);
    assert ToNumber(JsArray([JsNumber(8080.0), JsNumber(8081.0)])) == NonFinite;
  }

  /** `optionalTrim`: null stays null, a blank string becomes null, a non-string is rejected. */
  function OptionalTrim(value: JsValue, field: Field): (r: Result<Option<string>, AppError>)
    ensures IsNullish(value) ==> r == Ok(None)
    ensures !IsNullish(value) && !value.JsString? ==> r == Err(Invalid(StringMessage, field, InvalidType))
    ensures value.JsString? ==> r == Ok(if Trim(value.s) == "" then None else Some(Trim(value.s)))
    ensures r.Ok? && r.value.Some? ==> IsTrimmedText(r.value.value)
  {
    if IsNullish(value) then Ok(None)
    else if !value.JsString? then Err(Invalid(StringMessage, field, InvalidType))
    else
      var trimmed := Trim(value.s);
      Ok(if trimmed == "" then None else Some(trimmed))
  }

  /** The fields of the registration request body (absent keys are `JsUndefined`). */
  datatype RegistrationInput = RegistrationInput(
    name: JsValue,
    repositoryUrl: JsValue,
    port: JsValue,
    startCommand: JsValue,
    healthEndpoint: JsValue,
    notes: JsValue,
    templateId: JsValue,
    templateName: JsValue)

  /** The validated payload. */
  datatype Registration = Registration(
    name: string,
    repositoryUrl: Option<string>,
    port: Option<int>,
    startCommand: Option<string>,
    healthEndpoint: Option<string>,
    notes: Option<string>)

  predicate IsTrimmedText(s: string) {
    s != "" && !IsJsWhitespace(s[0]) && !IsJsWhitespace(s[|s| - 1])
  }

  /** What every validated payload satisfies. */
  predicate IsCleanRegistration(reg: Registration) {
    && IsTrimmedText(reg.name)
    && (reg.repositoryUrl.Some? ==> IsTrimmedText(reg.repositoryUrl.value) && HasRepositoryProtocol(reg.repositoryUrl.value))
    && (reg.port.Some? ==> 1 <= reg.port.value <= 65535)
    && (reg.startCommand.Some? ==> IsTrimmedText(reg.startCommand.value))
    && (reg.healthEndpoint.Some? ==> IsTrimmedText(reg.healthEndpoint.value))
    && (reg.notes.Some? ==> IsTrimmedText(reg.notes.value))
  }

  /** `validateRegistrationPayload`: the first violation in the order name, repositoryUrl,
      port, startCommand, healthEndpoint, notes is reported. */
  function ValidateRegistrationPayload(input: RegistrationInput): (r: Result<Registration, AppError>)
    ensures NormalizeName(input.name) == "" ==> r == Err(Invalid(NameRequiredMessage, NameField, Required))
    ensures (NormalizeName(input.name) != "" && ValidateRepositoryUrl(input.repositoryUrl).Err?)
              ==> r == Err(ValidateRepositoryUrl(input.repositoryUrl).error)
    ensures (NormalizeName(input.name) != "" && ValidateRepositoryUrl(input.repositoryUrl).Ok?
             && ValidatePort(input.port).Err?)
              ==> r == Err(ValidatePort(input.port).error)
    ensures (NormalizeName(input.name) != "" && ValidateRepositoryUrl(input.repositoryUrl).Ok?
             && ValidatePort(input.port).Ok? && OptionalTrim(input.startCommand, StartCommandField).Err?)
              ==> r == Err(OptionalTrim(input.startCommand, StartCommandField).error)
    ensures (NormalizeName(input.name) != "" && ValidateRepositoryUrl(input.repositoryUrl).Ok?
             && ValidatePort(input.port).Ok? && OptionalTrim(input.startCommand, StartCommandField).Ok?
             && OptionalTrim(input.healthEndpoint, HealthEndpointField).Err?)
              ==> r == Err(OptionalTrim(input.healthEndpoint, HealthEndpointField).error)
    ensures (NormalizeName(input.name) != "" && ValidateRepositoryUrl(input.repositoryUrl).Ok?
             && ValidatePort(input.port).Ok? && OptionalTrim(input.startCommand, StartCommandField).Ok?
             && OptionalTrim(input.healthEndpoint, HealthEndpointField).Ok?
             && OptionalTrim(input.notes, NotesField).Err?)
              ==> r == Err(OptionalTrim(input.notes, NotesField).error)
    ensures r.Err? ==> r.error.AppValidationError?
    ensures r.Ok? ==> && NormalizeName(input.name) != ""
                      && ValidateRepositoryUrl(input.repositoryUrl).Ok?
                      && ValidatePort(input.port).Ok?
                      && OptionalTrim(input.startCommand, StartCommandField).Ok?
                      && OptionalTrim(input.healthEndpoint, HealthEndpointField).Ok?
                      && OptionalTrim(input.notes, NotesField).Ok?
                      && r.value == Registration(NormalizeName(input.name),
                                                 ValidateRepositoryUrl(input.repositoryUrl).value,
                                                 ValidatePort(input.port).value,
                                                 OptionalTrim(input.startCommand, StartCommandField).value,
                                                 OptionalTrim(input.healthEndpoint, HealthEndpointField).value,
                                                 OptionalTrim(input.notes, NotesField).value)
  {
    var name := NormalizeName(input.name);
    if name == "" then Err(Invalid(NameRequiredMessage, NameField, Required))
    else
      var repositoryUrl :- ValidateRepositoryUrl(input.repositoryUrl);
      var port :- ValidatePort(input.port);
      var startCommand :- OptionalTrim(input.startCommand, StartCommandField);
      var healthEndpoint :- OptionalTrim(input.healthEndpoint, HealthEndpointField);
      var notes :- OptionalTrim(input.notes, NotesField);
      Ok(Registration(name, repositoryUrl, port, startCommand, healthEndpoint, notes))
  }

  /** Every accepted payload is clean: trimmed non-blank texts, an accepted protocol and a
      port in range. */
  lemma AcceptedPayloadIsClean(input: RegistrationInput)
    requires ValidateRegistrationPayload(input).Ok?
    ensures IsCleanRegistration(ValidateRegistrationPayload(input).value)
  {
    var url := ValidateRepositoryUrl(input.repositoryUrl);
    var port := ValidatePort(input.port);
    var startCommand := OptionalTrim(input.startCommand, StartCommandField);
    var healthEndpoint := OptionalTrim(input.healthEndpoint, HealthEndpointField);
    var notes := OptionalTrim(input.notes, NotesField);
    assert url.Ok? && port.Ok? && startCommand.Ok? && healthEndpoint.Ok? && notes.Ok?;
    var reg := Registration(NormalizeName(input.name), url.value, port.value, startCommand.value,
                            healthEndpoint.value, notes.value);
    assert ValidateRegistrationPayload(input).value == reg;
    assert IsTrimmedText(reg.name);
  }

  /** A name that is present but blank after trimming is reported before anything else,
      here before an invalid port. */
  lemma BlankNameReportedFirst()
    ensures ValidateRegistrationPayload(RegistrationInput(JsString("   "), JsNumber(1.5), JsNumber(0.0),
              JsUndefined, JsUndefined, JsUndefined, JsUndefined, JsUndefined)).error
            == Invalid(NameRequiredMessage, NameField, Required)
  {
    AllWhitespaceTrimsToEmpty("   ");
  }

  // ---------------------------------------------------------------- template defaults

  /** `mergeTemplateDefaults`: an optional field keeps the payload's value, else takes the
      template's, else stays null; name and health endpoint always come from the payload. */
  function MergeTemplateDefaults(template: Option<Template>, payload: Registration): (r: Registration)
    ensures template.None? ==> r == payload
    ensures r.name == payload.name && r.healthEndpoint == payload.healthEndpoint
    ensures payload.repositoryUrl.Some? ==> r.repositoryUrl == payload.repositoryUrl
    ensures payload.port.Some? ==> r.port == payload.port
    ensures payload.startCommand.Some? ==> r.startCommand == payload.startCommand
    ensures payload.notes.Some? ==> r.notes == payload.notes
    ensures template.Some? && payload.repositoryUrl.None? ==> r.repositoryUrl == template.value.repositoryUrl
    ensures template.Some? && payload.port.None? ==> r.port == template.value.defaultPort
    ensures template.Some? && payload.startCommand.None? ==> r.startCommand == template.value.startCommand
    ensures template.Some? && payload.notes.None? ==> r.notes == template.value.onboardingHints
  {
    if template.None? then payload
    else
      var t := template.value;
      payload.(
        repositoryUrl := payload.repositoryUrl.OrElse(t.repositoryUrl),
        port := payload.port.OrElse(t.defaultPort),
        startCommand := payload.startCommand.OrElse(t.startCommand),
        notes := payload.notes.OrElse(t.onboardingHints))
  }

  /** Template defaults are merged after validation and are not re-checked: an out-of-range
      default port of the template reaches the merged payload. */
  lemma TemplateDefaultsAreNotValidated(template: Template, payload: Registration)
    requires IsCleanRegistration(payload) && payload.port.None?
    requires template.defaultPort.Some? && !(1 <= template.defaultPort.value <= 65535)
    ensures !IsCleanRegistration(MergeTemplateDefaults(Some(template), payload))
  {
  }
}
