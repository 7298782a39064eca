/**
  The business input schema: a zod object with three string fields.

    name   length (in UTF-16 code units) between 2 and 280
    url    accepted by zod's URL check (a parameter here: its parser is not visible)
    phone  matched by the anchored pattern  ^\(?(\d{3})\)?[- ]?(\d{3})[- ]?(\d{4})$

  All three fields are required. Keys outside the schema (such as the form's
  business type) are stripped by the object parser and never reach the caller.
*/
module BusinessValidator {
  import opened Common

  // ---------------------------------------------------------------------------
  // The phone pattern
  // ---------------------------------------------------------------------------

  /** The characters `[- ]` of the pattern. */
  const Separators: set<char> := {'-', ' '}

  /** Every character an accepted phone may contain. */
  predicate IsPhoneChar(c: char)
  {
    IsDigit(c) || c == '(' || c == ')' || c in Separators
  }

  /** One match of the pattern, split at its optional pieces and digit groups. */
  datatype PhoneParts = PhoneParts(
    open: Option<char>,      // \(?
    area: string,            // (\d{3})
    close: Option<char>,     // \)?
    sep1: Option<char>,      // [- ]?
    exchange: string,        // (\d{3})
    sep2: Option<char>,      // [- ]?
    line: string)            // (\d{4})

  /** The constraints each piece of the pattern puts on its text. */
  ghost predicate WellFormed(p: PhoneParts)
  {
    && (p.open.Some? ==> p.open.value == '(')
    && |p.area| == 3 && AllDigits(p.area)
    && (p.close.Some? ==> p.close.value == ')')
    && (p.sep1.Some? ==> p.sep1.value in Separators)
    && |p.exchange| == 3 && AllDigits(p.exchange)
    && (p.sep2.Some? ==> p.sep2.value in Separators)
    && |p.line| == 4 && AllDigits(p.line)
  }

  function OptChar(o: Option<char>): string
  {
    if o.Some? then [o.value] else []
  }

  /** The text after the exchange group: `[- ]?(\d{4})`. */
  function LineText(p: PhoneParts): string
  {
    OptChar(p.sep2) + p.line
  }

  /** The text after the area group: `\)?[- ]?(\d{3})[- ]?(\d{4})`. */
  function AfterAreaText(p: PhoneParts): string
  {
    OptChar(p.close) + (OptChar(p.sep1) + (p.exchange + LineText(p)))
  }

  /** The text a choice of pieces spells out. */
  function Render(p: PhoneParts): string
  {
    OptChar(p.open) + (p.area + AfterAreaText(p))
  }

  /** The language of the anchored pattern: every text some well-formed choice spells out. */
  ghost predicate InPhoneLanguage(s: string)
  {
    exists p :: WellFormed(p) && Render(p) == s
  }

  /** An optional single character from `allowed` at the front of `s`. */
  function OptionalChar(s: string, allowed: set<char>): (Option<char>, string)
  {
    if |s| > 0 && s[0] in allowed then (Some(s[0]), s[1..]) else (None, s)
  }

  /** Exactly `n` digits at the front of `s`, and what follows them. */
  function DigitRun(s: string, n: nat): Option<(string, string)>
  {
    if n <= |s| && AllDigits(s[..n]) then Some((s[..n], s[n..])) else None
  }

  /**
    The recogniser for the pattern, read left to right. None of the optional
    characters is a digit and every optional piece is followed by a digit group
    or by another optional piece with a disjoint character set, so taking an
    optional character whenever it is present is the only choice that can lead
    to a match: no backtracking is needed. What it returns is a well-formed
    split of the pattern that spells out exactly its input.
  */
  function ParsePhone(s: string): (r: Option<PhoneParts>)
    ensures r.Some? ==> WellFormed(r.value) && Render(r.value) == s
  {
    var (open, s1) := OptionalChar(s, {'('});
    OptionalCharSplits(s, {'('});
    match DigitRun(s1, 3)
    case None => None
    case Some((area, s2)) =>
      DigitRunSplits(s1, 3);
      ParseAfterArea(open, area, s2)
  }

  /** The rest of the pattern once the optional `(` and the area group are read. */
  function ParseAfterArea(open: Option<char>, area: string, s: string): (r: Option<PhoneParts>)
    ensures r.Some? ==>
      && r.value.open == open && r.value.area == area
      && (r.value.close.Some? ==> r.value.close.value == ')')
      && (r.value.sep1.Some? ==> r.value.sep1.value in Separators)
      && |r.value.exchange| == 3 && AllDigits(r.value.exchange)
      && (r.value.sep2.Some? ==> r.value.sep2.value in Separators)
      && |r.value.line| == 4 && AllDigits(r.value.line)
      && AfterAreaText(r.value) == s
  {
    var (close, s1) := OptionalChar(s, {')'});
    OptionalCharSplits(s, {')'});
    var (sep1, s2) := OptionalChar(s1, Separators);
    OptionalCharSplits(s1, Separators);
    match DigitRun(s2, 3)
    case None => None
    case Some((exchange, s3)) =>
      DigitRunSplits(s2, 3);
      ParseLine(open, area, close, sep1, exchange, s3)
  }

  /** The last separator, the line group and the end of the input. */
  function ParseLine(open: Option<char>, area: string, close: Option<char>, sep1: Option<char>,
                     exchange: string, s: string): (r: Option<PhoneParts>)
    ensures r.Some? ==>
      && r.value.open == open && r.value.area == area && r.value.close == close
      && r.value.sep1 == sep1 && r.value.exchange == exchange
      && (r.value.sep2.Some? ==> r.value.sep2.value in Separators)
      && |r.value.line| == 4 && AllDigits(r.value.line)
      && LineText(r.value) == s
  {
    var (sep2, s1) := OptionalChar(s, Separators);
    OptionalCharSplits(s, Separators);
    match DigitRun(s1, 4)
    case None => None
    case Some((line, rest)) =>
      DigitRunSplits(s1, 4);
      if rest == [] then
        assert line + rest == line;
        Some(PhoneParts(open, area, close, sep1, exchange, sep2, line))
      else None
  }

  /** `phoneRegex.test(s)`: the recogniser accepts exactly the language of the anchored pattern. */
  predicate PhoneMatches(s: string)
    ensures PhoneMatches(s) <==> InPhoneLanguage(s)
  {
    ParsePhoneFindsLanguage(s);
    ParsePhone(s).Some?
  }

  lemma OptionalCharSplits(s: string, allowed: set<char>)
    ensures OptChar(OptionalChar(s, allowed).0) + OptionalChar(s, allowed).1 == s
    ensures OptionalChar(s, allowed).0.Some? ==> OptionalChar(s, allowed).0.value in allowed
  {
    if |s| > 0 && s[0] in allowed {
      assert [s[0]] + s[1..] == s;
    }
  }

  lemma DigitRunSplits(s: string, n: nat)
    requires DigitRun(s, n).Some?
    ensures DigitRun(s, n).value.0 + DigitRun(s, n).value.1 == s
    ensures |DigitRun(s, n).value.0| == n && AllDigits(DigitRun(s, n).value.0)
  {
    assert s[..n] + s[n..] == s;
  }

  lemma OptionalCharTakes(o: Option<char>, rest: string, allowed: set<char>)
    requires o.Some? ==> o.value in allowed
    requires |rest| > 0 && rest[0] !in allowed
    ensures OptionalChar(OptChar(o) + rest, allowed) == (o, rest)
  {
    if o.Some? {
      assert (OptChar(o) + rest)[1..] == rest;
    } else {
      assert OptChar(o) + rest == rest;
    }
  }

  lemma DigitRunTakes(d: string, rest: string)
    requires AllDigits(d)
    ensures DigitRun(d + rest, |d|) == Some((d, rest))
  {
    assert (d + rest)[..|d|] == d;
    assert (d + rest)[|d|..] == rest;
  }

  lemma ParseLineComplete(p: PhoneParts)
    requires WellFormed(p)
    ensures ParseLine(p.open, p.area, p.close, p.sep1, p.exchange, LineText(p)) == Some(p)
  {
    assert IsDigit(p.line[0]);
    OptionalCharTakes(p.sep2, p.line, Separators);
    DigitRunTakes(p.line, []);
    assert p.line + [] == p.line;
  }

  lemma ParseAfterAreaComplete(p: PhoneParts)
    requires WellFormed(p)
    ensures ParseAfterArea(p.open, p.area, AfterAreaText(p)) == Some(p)
  {
    var t2 := p.exchange + LineText(p);
    var t1 := OptChar(p.sep1) + t2;
    assert IsDigit(p.exchange[0]) && t2[0] == p.exchange[0];
    assert t1[0] == (if p.sep1.Some? then p.sep1.value else p.exchange[0]);
    OptionalCharTakes(p.close, t1, {')'});
    OptionalCharTakes(p.sep1, t2, Separators);
    DigitRunTakes(p.exchange, LineText(p));
    ParseLineComplete(p);
  }

  /** Every well-formed split is found by the recogniser, and it is the only one. */
  lemma ParsePhoneComplete(p: PhoneParts)
    requires WellFormed(p)
    ensures ParsePhone(Render(p)) == Some(p)
  {
    var t1 := p.area + AfterAreaText(p);
    assert IsDigit(p.area[0]) && t1[0] == p.area[0];
    OptionalCharTakes(p.open, t1, {'('});
    DigitRunTakes(p.area, AfterAreaText(p));
    ParseAfterAreaComplete(p);
  }

  /** Every text in the pattern's language is accepted by the recogniser. */
  lemma ParsePhoneFindsLanguage(s: string)
    ensures InPhoneLanguage(s) ==> ParsePhone(s).Some?
  {
    if InPhoneLanguage(s) {
      var p :| WellFormed(p) && Render(p) == s;
      ParsePhoneComplete(p);
    }
  }

  // ---------------------------------------------------------------------------
  // Properties of accepted phones
  // ---------------------------------------------------------------------------

  /** The decimal digits of `s`, in order. */
  function DigitsOf(s: string): string
  {
    if s == [] then []
    else if IsDigit(s[0]) then [s[0]] + DigitsOf(s[1..])
    else DigitsOf(s[1..])
  }

  lemma {:induction false} DigitsOfConcat(a: string, b: string)
    ensures DigitsOf(a + b) == DigitsOf(a) + DigitsOf(b)
  {
    if a == [] {
      assert a + b == b;
    } else {
      assert (a + b)[1..] == a[1..] + b;
      DigitsOfConcat(a[1..], b);
    }
  }

  lemma {:induction false} DigitsOfAllDigits(d: string)
    requires AllDigits(d)
    ensures DigitsOf(d) == d
  {
    if d != [] {
      DigitsOfAllDigits(d[1..]);
      assert [d[0]] + d[1..] == d;
    }
  }

  lemma DigitsOfOptChar(o: Option<char>)
    requires o.Some? ==> !IsDigit(o.value)
    ensures DigitsOf(OptChar(o)) == []
  {
  }

  /** The digits after the area group are the exchange and line groups, in order. */
  lemma DigitsOfAfterArea(p: PhoneParts)
    requires WellFormed(p)
    ensures DigitsOf(AfterAreaText(p)) == p.exchange + p.line
  {
    DigitsOfOptChar(p.close);
    DigitsOfOptChar(p.sep1);
    DigitsOfOptChar(p.sep2);
    DigitsOfAllDigits(p.exchange);
    DigitsOfAllDigits(p.line);
    DigitsOfConcat(OptChar(p.sep2), p.line);
    DigitsOfConcat(p.exchange, LineText(p));
    DigitsOfConcat(OptChar(p.sep1), p.exchange + LineText(p));
    DigitsOfConcat(OptChar(p.close), OptChar(p.sep1) + (p.exchange + LineText(p)));
  }

  /** The digits of a rendered phone are its three groups, in order. */
  lemma DigitsOfRender(p: PhoneParts)
    requires WellFormed(p)
    ensures DigitsOf(Render(p)) == p.area + p.exchange + p.line
  {
    DigitsOfOptChar(p.open);
    DigitsOfAllDigits(p.area);
    DigitsOfAfterArea(p);
    DigitsOfConcat(p.area, AfterAreaText(p));
    DigitsOfConcat(OptChar(p.open), p.area + AfterAreaText(p));
    assert p.area + (p.exchange + p.line) == p.area + p.exchange + p.line;
  }

  /** An accepted phone holds exactly ten digits, grouped 3-3-4 by the pattern. */
  lemma AcceptedPhoneHasTenDigits(s: string)
    requires PhoneMatches(s)
    ensures |DigitsOf(s)| == 10
    ensures var p := ParsePhone(s).value;
      |p.area| == 3 && |p.exchange| == 3 && |p.line| == 4
      && DigitsOf(s) == p.area + p.exchange + p.line
  {
    DigitsOfRender(ParsePhone(s).value);
  }

  /** A text whose digit count is not ten is rejected. */
  lemma WrongDigitCountRejected(s: string)
    requires |DigitsOf(s)| != 10
    ensures !PhoneMatches(s)
  {
    if PhoneMatches(s) {
      AcceptedPhoneHasTenDigits(s);
    }
  }

  predicate AllPhoneChars(s: string)
  {
    forall i :: 0 <= i < |s| ==> IsPhoneChar(s[i])
  }

  lemma AllPhoneCharsConcat(a: string, b: string)
    requires AllPhoneChars(a) && AllPhoneChars(b)
    ensures AllPhoneChars(a + b)
  {
    assert forall i :: |a| <= i < |a + b| ==> (a + b)[i] == b[i - |a|];
  }

  /** An accepted phone uses only digits, parentheses, hyphens and spaces, in 10 to 14 characters. */
  lemma AcceptedPhoneShape(s: string)
    requires PhoneMatches(s)
    ensures AllPhoneChars(s)
    ensures 10 <= |s| <= 14
  {
    var p := ParsePhone(s).value;
    AllPhoneCharsConcat(OptChar(p.sep2), p.line);
    AllPhoneCharsConcat(p.exchange, LineText(p));
    AllPhoneCharsConcat(OptChar(p.sep1), p.exchange + LineText(p));
    AllPhoneCharsConcat(OptChar(p.close), OptChar(p.sep1) + (p.exchange + LineText(p)));
    AllPhoneCharsConcat(p.area, AfterAreaText(p));
    AllPhoneCharsConcat(OptChar(p.open), p.area + AfterAreaText(p));
  }

  /** Every separator is directly followed by a digit. */
  predicate SeparatorsBeforeDigits(s: string)
  {
    forall i :: 0 <= i < |s| && s[i] in Separators ==> i + 1 < |s| && IsDigit(s[i + 1])
  }

  /** `a` followed by `b` keeps every separator before a digit, if `a` does except at its very end. */
  lemma SeparatorsBeforeDigitsConcat(a: string, b: string)
    requires forall i :: 0 <= i < |a| - 1 && a[i] in Separators ==> IsDigit(a[i + 1])
    requires SeparatorsBeforeDigits(b)
    requires a != [] && a[|a| - 1] in Separators ==> b != [] && IsDigit(b[0])
    ensures SeparatorsBeforeDigits(a + b)
  {
    var ab := a + b;
    assert forall i :: 0 <= i < |a| ==> ab[i] == a[i];
    assert forall i :: |a| <= i < |ab| ==> ab[i] == b[i - |a|];
  }

  lemma OptCharThenDigits(o: Option<char>, d: string)
    requires |d| > 0 && AllDigits(d)
    ensures SeparatorsBeforeDigits(OptChar(o) + d)
  {
    assert SeparatorsBeforeDigits(d);
    assert IsDigit(d[0]);
    SeparatorsBeforeDigitsConcat(OptChar(o), d);
  }

  lemma AfterAreaSeparators(p: PhoneParts)
    requires WellFormed(p)
    ensures SeparatorsBeforeDigits(AfterAreaText(p))
  {
    OptCharThenDigits(p.sep2, p.line);
    SeparatorsBeforeDigitsConcat(p.exchange, LineText(p));
    var t2 := p.exchange + LineText(p);
    assert IsDigit(t2[0]);
    SeparatorsBeforeDigitsConcat(OptChar(p.sep1), t2);
    var t1 := OptChar(p.sep1) + t2;
    SeparatorsBeforeDigitsConcat(OptChar(p.close), t1);
  }

  lemma RenderSeparators(p: PhoneParts)
    requires WellFormed(p)
    ensures SeparatorsBeforeDigits(Render(p))
  {
    AfterAreaSeparators(p);
    SeparatorsBeforeDigitsConcat(p.area, AfterAreaText(p));
    SeparatorsBeforeDigitsConcat(OptChar(p.open), p.area + AfterAreaText(p));
  }

  /** In an accepted phone at most one separator stands between two digit groups. */
  lemma AcceptedPhoneSingleSeparators(s: string)
    requires PhoneMatches(s)
    ensures SeparatorsBeforeDigits(s)
  {
    RenderSeparators(ParsePhone(s).value);
  }

  /** A doubled separator is rejected wherever it stands. */
  lemma DoubledSeparatorRejected(s: string, i: nat)
    requires i + 1 < |s| && s[i] in Separators && s[i + 1] in Separators
    ensures !PhoneMatches(s)
  {
    if PhoneMatches(s) {
      AcceptedPhoneSingleSeparators(s);
    }
  }

  /** Ten bare digits are accepted. */
  lemma TenDigitsAccepted(s: string)
    requires |s| == 10 && AllDigits(s)
    ensures PhoneMatches(s)
  {
    var p := PhoneParts(None, s[..3], None, None, s[3..6], None, s[6..]);
    assert Render(p) == s;
    ParsePhoneComplete(p);
  }

  /** A text with both parentheses is accepted. */
  lemma PhoneExampleParenthesised()
    ensures PhoneMatches("(555) 555-1234")
  {
    var p := PhoneParts(Some('('), "555", Some(')'), Some(' '), "555", Some('-'), "1234");
    assert Render(p) == "(555) 555-1234";
    ParsePhoneComplete(p);
  }

  /** The parentheses need not be balanced: an opening one alone is accepted. */
  lemma PhoneExampleOpenOnly()
    ensures PhoneMatches("(555 555-1234")
  {
    var p := PhoneParts(Some('('), "555", None, Some(' '), "555", Some('-'), "1234");
    assert Render(p) == "(555 555-1234";
    ParsePhoneComplete(p);
  }

  /** The parentheses need not be balanced: a closing one alone is accepted. */
  lemma PhoneExampleCloseOnly()
    ensures PhoneMatches("555) 555 1234")
  {
    var p := PhoneParts(None, "555", Some(')'), Some(' '), "555", Some(' '), "1234");
    assert Render(p) == "555) 555 1234";
    ParsePhoneComplete(p);
  }

  /** Concrete texts the pattern rejects: too few digits, the empty text, a doubled separator. */
  lemma PhoneExamplesRejected()
    ensures !PhoneMatches("555-1234")
    ensures !PhoneMatches("")
    ensures !PhoneMatches("555--555-1234")
  {
    assert DigitsOf("555-1234") == "5551234";
    WrongDigitCountRejected("555-1234");
    WrongDigitCountRejected("");
    DoubledSeparatorRejected("555--555-1234", 3);
  }

  // ---------------------------------------------------------------------------
  // The schema
  // ---------------------------------------------------------------------------

  const MinNameLength: nat := 2
  const MaxNameLength: nat := 280

  /** `String.prototype.length`: characters outside the Basic Multilingual Plane take two UTF-16 code units. */
  function Utf16Length(s: string): (n: nat)
    ensures |s| <= n <= 2 * |s|
  {
    if s == [] then 0
    else (if s[0] as int > 0xFFFF then 2 else 1) + Utf16Length(s[1..])
  }

  lemma {:induction false} Utf16LengthOfBmp(s: string)
    requires forall i :: 0 <= i < |s| ==> s[i] as int <= 0xFFFF
    ensures Utf16Length(s) == |s|
  {
    if s != [] {
      Utf16LengthOfBmp(s[1..]);
    }
  }

  /** The fields a caller submits; absent stands for a missing key or a value that is not a string. */
  datatype RawBusiness = RawBusiness(
    name: Option<string>,
    businessType: Option<string>,
    url: Option<string>,
    phone: Option<string>)

  /** What a successful parse hands to the procedure: the schema's keys and nothing else. */
  datatype BusinessInput = BusinessInput(name: string, url: string, phone: string)

  datatype Field = NameField | UrlField | PhoneField | IdField

  datatype IssueKind =
    | Required                 // missing, or not a string
    | TooSmall(minimum: nat)
    | TooBig(maximum: nat)
    | InvalidUrl
    | InvalidPhone            // message 'Invalid Phone Number'

  datatype Issue = Issue(field: Field, kind: IssueKind)

  predicate NameAccepted(name: Option<string>)
  {
    name.Some? && MinNameLength <= Utf16Length(name.value) <= MaxNameLength
  }

  predicate UrlAccepted(url: Option<string>, isUrl: string -> bool)
  {
    url.Some? && isUrl(url.value)
  }

  predicate PhoneAccepted(phone: Option<string>)
  {
    phone.Some? && PhoneMatches(phone.value)
  }

  /** `z.string().min(2).max(280)`: both length checks run, at most one can fail. */
  function NameIssues(name: Option<string>): (issues: seq<Issue>)
    ensures issues == [] <==> NameAccepted(name)
    ensures |issues| <= 1
    ensures forall i :: 0 <= i < |issues| ==> issues[i].field == NameField
  {
    match name
    case None => [Issue(NameField, Required)]
    case Some(s) =>
      (if Utf16Length(s) < MinNameLength then [Issue(NameField, TooSmall(MinNameLength))] else [])
      + (if Utf16Length(s) > MaxNameLength then [Issue(NameField, TooBig(MaxNameLength))] else [])
  }

  /** `z.string().url()`. */
  function UrlIssues(url: Option<string>, isUrl: string -> bool): (issues: seq<Issue>)
    ensures issues == [] <==> UrlAccepted(url, isUrl)
    ensures |issues| <= 1
    ensures forall i :: 0 <= i < |issues| ==> issues[i].field == UrlField
  {
    match url
    case None => [Issue(UrlField, Required)]
    case Some(s) => if isUrl(s) then [] else [Issue(UrlField, InvalidUrl)]
  }

  /** `z.string().regex(phoneRegex, ...)`: required, so the empty text is checked by the pattern too. */
  function PhoneIssues(phone: Option<string>): (issues: seq<Issue>)
    ensures issues == [] <==> PhoneAccepted(phone)
    ensures |issues| <= 1
    ensures forall i :: 0 <= i < |issues| ==> issues[i].field == PhoneField
  {
    match phone
    case None => [Issue(PhoneField, Required)]
    case Some(s) => if PhoneMatches(s) then [] else [Issue(PhoneField, InvalidPhone)]
  }

  /** Every issue of the object parse, in the schema's key order. */
  function SchemaIssues(raw: RawBusiness, isUrl: string -> bool): seq<Issue>
  {
    NameIssues(raw.name) + UrlIssues(raw.url, isUrl) + PhoneIssues(raw.phone)
  }

  /** Some issue in `issues` is about field `f`. */
  predicate Reports(issues: seq<Issue>, f: Field)
  {
    exists e :: e in issues && e.field == f
  }

  lemma ReportsConcat(a: seq<Issue>, b: seq<Issue>, f: Field)
    ensures Reports(a + b, f) <==> Reports(a, f) || Reports(b, f)
  {
    if Reports(a + b, f) {
      var e :| e in a + b && e.field == f;
      assert e in a || e in b;
    }
    if Reports(a, f) {
      var e :| e in a && e.field == f;
      assert e in a + b;
    }
    if Reports(b, f) {
      var e :| e in b && e.field == f;
      assert e in a + b;
    }
  }

  /** A list whose issues are all about field `g` reports `f` exactly when it is non-empty and `f` is `g`. */
  lemma ReportsOfOneField(issues: seq<Issue>, g: Field, f: Field)
    requires forall i :: 0 <= i < |issues| ==> issues[i].field == g
    ensures Reports(issues, f) <==> issues != [] && f == g
  {
    if issues != [] && f == g {
      assert issues[0] in issues;
    }
  }

  /**
    `businessValidationSchema.safeParse(raw)`: all or nothing. A record passes
    exactly when each of its three fields does; a failing record reports an
    issue for each failing field and for no other; a passing one keeps the
    three submitted texts and drops every other key.
  */
  function Validate(raw: RawBusiness, isUrl: string -> bool): (r: Result<BusinessInput, seq<Issue>>)
    ensures r.Ok? <==> NameAccepted(raw.name) && UrlAccepted(raw.url, isUrl) && PhoneAccepted(raw.phone)
    ensures r.Ok? ==> r.value == BusinessInput(raw.name.value, raw.url.value, raw.phone.value)
    ensures r.Err? ==> r.error != [] && !Reports(r.error, IdField)
    ensures r.Err? ==> (Reports(r.error, NameField) <==> !NameAccepted(raw.name))
    ensures r.Err? ==> (Reports(r.error, UrlField) <==> !UrlAccepted(raw.url, isUrl))
    ensures r.Err? ==> (Reports(r.error, PhoneField) <==> !PhoneAccepted(raw.phone))
  {
    var n, u, p := NameIssues(raw.name), UrlIssues(raw.url, isUrl), PhoneIssues(raw.phone);
    var issues := SchemaIssues(raw, isUrl);
    forall f: Field ensures Reports(issues, f) <==> Reports(n, f) || Reports(u, f) || Reports(p, f) {
      ReportsConcat(n + u, p, f);
      ReportsConcat(n, u, f);
    }
    forall f: Field ensures && (Reports(n, f) <==> n != [] && f == NameField)
                            && (Reports(u, f) <==> u != [] && f == UrlField)
                            && (Reports(p, f) <==> p != [] && f == PhoneField) {
      ReportsOfOneField(n, NameField, f);
      ReportsOfOneField(u, UrlField, f);
      ReportsOfOneField(p, PhoneField, f);
    }
    if issues == [] then Ok(BusinessInput(raw.name.value, raw.url.value, raw.phone.value))
    else Err(issues)
  }

  /** The business type plays no part in validation: records differing only in it validate alike. */
  lemma ValidateIgnoresType(raw: RawBusiness, other: Option<string>, isUrl: string -> bool)
    ensures Validate(raw.(businessType := other), isUrl) == Validate(raw, isUrl)
  {
  }

  /** A name is accepted exactly when its length is between 2 and 280 inclusive. */
  lemma NameBounds(s: string)
    requires forall i :: 0 <= i < |s| ==> s[i] as int <= 0xFFFF
    ensures NameAccepted(Some(s)) <==> 2 <= |s| <= 280
  {
    Utf16LengthOfBmp(s);
  }

  /** A missing phone and an empty phone are both rejected. */
  lemma PhoneIsRequired()
    ensures !PhoneAccepted(None)
    ensures !PhoneAccepted(Some(""))
  {
    PhoneExamplesRejected();
  }
}
