/** The form validation rules shared by the sign-up, login and listing
    forms: `required`, `minLength` and the two `pattern` rules (the e-mail
    expression `^[A-Z0-9._%+-]+@[A-Z0-9.-]+\.[A-Z]{2,}$` with the `i` flag and
    the phone expression `^[+]?[(]?[0-9]{3}[)]?[-\s.]?[0-9]{3}[-\s.]?[0-9]{4,6}$`).
    Each expression is modelled as the set of strings built from well-formed
    parts, together with a deterministic recogniser proved sound and complete
    for that set. */
module Patterns {
  import opened Values
  import opened Numbers
  import opened Text

  predicate All(s: string, ok: char -> bool) {
    forall i :: 0 <= i < |s| ==> ok(s[i])
  }

  /** `[A-Z]` under the `i` flag: exactly the ASCII letters. */
  predicate IsAsciiLetter(c: char) {
    'a' <= c <= 'z' || 'A' <= c <= 'Z'
  }

  predicate IsLocalChar(c: char) {
    IsAsciiLetter(c) || IsDigit(c) || c == '.' || c == '_' || c == '%' || c == '+' || c == '-'
  }

  predicate IsDomainChar(c: char) {
    IsAsciiLetter(c) || IsDigit(c) || c == '.' || c == '-'
  }

  /** The last index of `c` in `s`. */
  function LastIndex(s: string, c: char): (r: Option<nat>)
    ensures r.Some? ==> r.value < |s| && s[r.value] == c && forall j :: r.value < j < |s| ==> s[j] != c
    ensures r.None? ==> forall j :: 0 <= j < |s| ==> s[j] != c
  {
    if s == [] then None
    else if s[|s| - 1] == c then Some(|s| - 1)
    else LastIndex(s[..|s| - 1], c)
  }

  // ---------------------------------------------------------------- e-mail

  /** The three runs of the e-mail expression: before the `@`, between the
      `@` and the final dot, and the top-level domain after it. */
  datatype EmailParts = EmailParts(local: string, domain: string, tld: string)

  predicate EmailWellFormed(e: EmailParts) {
    |e.local| > 0 && All(e.local, IsLocalChar)
    && |e.domain| > 0 && All(e.domain, IsDomainChar)
    && |e.tld| >= 2 && All(e.tld, IsAsciiLetter)
  }

  function RenderEmail(e: EmailParts): string {
    e.local + "@" + e.domain + "." + e.tld
  }

  /** The language of the e-mail expression. */
  ghost predicate MatchesEmail(s: string) {
    exists e :: EmailWellFormed(e) && RenderEmail(e) == s
  }

  /** Splits at the first `@` and at the last dot after it. */
  function ParseEmail(s: string): (r: Option<EmailParts>)
    ensures r.Some? ==> EmailWellFormed(r.value) && RenderEmail(r.value) == s
  {
    var a := PrefixLen(s, c => c != '@');
    if a == |s| then None
    else
      var rest := s[a + 1..];
      match LastIndex(rest, '.')
      case None => None
      case Some(d) =>
        var e := EmailParts(s[..a], rest[..d], rest[d + 1..]);
        SplitRenders(s, a, d);
        if EmailWellFormed(e) then Some(e) else None
  }

  /** Cutting at an `@` and at a later dot gives back the string. */
  lemma SplitRenders(s: string, a: nat, d: nat)
    requires a < |s| && s[a] == '@' && d < |s| - a - 1 && s[a + 1 + d] == '.'
    ensures RenderEmail(EmailParts(s[..a], s[a + 1..][..d], s[a + 1..][d + 1..])) == s
  {
    var rest := s[a + 1..];
    assert rest == rest[..d] + "." + rest[d + 1..];
    assert s == s[..a] + "@" + rest;
  }

  /** The recogniser finds the parts of every string the expression describes. */
  lemma ParseEmailComplete(e: EmailParts)
    requires EmailWellFormed(e)
    ensures ParseEmail(RenderEmail(e)) == Some(e)
  {
    var s := RenderEmail(e);
    FirstAt(e);
    var rest := s[|e.local| + 1..];
    assert rest == e.domain + "." + e.tld;
    LastDot(e.domain, e.tld);
    assert s[..|e.local|] == e.local;
  }

  /** The first `@` of a rendered address is the one after the local part. */
  lemma FirstAt(e: EmailParts)
    requires EmailWellFormed(e)
    ensures PrefixLen(RenderEmail(e), c => c != '@') == |e.local|
  {
    var s := RenderEmail(e);
    assert s[|e.local|] == '@';
    assert forall i :: 0 <= i < |e.local| ==> s[i] == e.local[i];
  }

  /** The last dot after the `@` is the one before the top-level domain. */
  lemma LastDot(domain: string, tld: string)
    requires All(tld, IsAsciiLetter)
    ensures var rest := domain + "." + tld;
      LastIndex(rest, '.') == Some(|domain|)
      && rest[..|domain|] == domain && rest[|domain| + 1..] == tld
  {
    var rest := domain + "." + tld;
    assert rest[|domain|] == '.';
    assert forall j :: |domain| < j < |rest| ==> rest[j] == tld[j - |domain| - 1];
  }

  predicate IsEmail(s: string) {
    ParseEmail(s).Some?
  }

  /** The recogniser accepts exactly the language of the expression. */
  lemma IsEmailIff(s: string)
    ensures IsEmail(s) <==> MatchesEmail(s)
  {
    if MatchesEmail(s) {
      var e :| EmailWellFormed(e) && RenderEmail(e) == s;
      ParseEmailComplete(e);
    }
  }

  /** An accepted address has exactly one `@`. */
  lemma EmailHasOneAt(s: string, i: nat, j: nat)
    requires IsEmail(s) && i < j < |s|
    ensures !(s[i] == '@' && s[j] == '@')
  {
  }

  // ----------------------------------------- the browser's e-mail check

  /** The characters a valid e-mail address may have before its `@`, as the
      HTML Living Standard defines it for `<input type="email">` (section
      4.10.5.1.5, "E-mail state"). */
  predicate IsHtmlLocalChar(c: char) {
    IsAsciiLetter(c) || IsDigit(c)
    || c == '.' || c == '!' || c == '#' || c == '$' || c == '%' || c == '&' || c == '\''
    || c == '*' || c == '+' || c == '/' || c == '=' || c == '?' || c == '^' || c == '_'
    || c == '`' || c == '{' || c == '|' || c == '}' || c == '~' || c == '-'
  }

  predicate IsLabelChar(c: char) {
    IsAsciiLetter(c) || IsDigit(c) || c == '-'
  }

  /** A domain label: 1 to 63 letters, digits and hyphens, with no hyphen at
      either end. */
  predicate IsLabel(l: string) {
    0 < |l| <= 63 && All(l, IsLabelChar) && l[0] != '-' && l[|l| - 1] != '-'
  }

  /** Labels separated by single dots: the first run of label characters is
      a label, and what follows it is nothing or a dot and another hostname. */
  predicate IsHostname(d: string)
    decreases |d|
  {
    var n := PrefixLen(d, IsLabelChar);
    IsLabel(d[..n]) && (n == |d| || (d[n] == '.' && IsHostname(d[n + 1..])))
  }

  /** The labels joined with dots. */
  function JoinLabels(ls: seq<string>): (d: string)
    requires ls != []
    ensures |d| >= |ls[0]| && d[..|ls[0]|] == ls[0]
  {
    if |ls| == 1 then ls[0] else ls[0] + "." + JoinLabels(ls[1..])
  }

  /** A valid e-mail address: a run of local characters, an `@` and a
      hostname. */
  predicate IsHtmlEmail(s: string) {
    var k := PrefixLen(s, IsHtmlLocalChar);
    0 < k < |s| && s[k] == '@' && IsHostname(s[k + 1..])
  }

  /** What the browser lets through an `<input type="email">` when the form is
      submitted: an empty value (the `required` rule is the form library's
      business) or a valid e-mail address. */
  predicate BrowserAccepts(s: string) {
    s == "" || IsHtmlEmail(s)
  }

  /** Every dot-joined sequence of labels is a hostname. */
  lemma {:induction false} HostnameComplete(ls: seq<string>)
    requires ls != [] && forall i :: 0 <= i < |ls| ==> IsLabel(ls[i])
    ensures IsHostname(JoinLabels(ls))
  {
    var d := JoinLabels(ls);
    var l := ls[0];
    if |ls| == 1 {
      PrefixLenOf(l, [], IsLabelChar);
      assert l + [] == l;
    } else {
      var tail := JoinLabels(ls[1..]);
      assert d == l + ("." + tail);
      PrefixLenOf(l, "." + tail, IsLabelChar);
      assert d[|l| + 1..] == tail;
      HostnameComplete(ls[1..]);
    }
  }

  /** Every hostname is a dot-joined sequence of labels. */
  lemma {:induction false} HostnameSound(d: string) returns (ls: seq<string>)
    requires IsHostname(d)
    ensures ls != [] && (forall i :: 0 <= i < |ls| ==> IsLabel(ls[i])) && JoinLabels(ls) == d
    decreases |d|
  {
    var n := PrefixLen(d, IsLabelChar);
    if n == |d| {
      ls := [d];
    } else {
      var rest := HostnameSound(d[n + 1..]);
      ls := [d[..n]] + rest;
      assert ls[1..] == rest;
      assert d == d[..n] + "." + d[n + 1..];
    }
  }

  /** The addresses built from local characters, an `@` and labels are
      exactly the valid ones. */
  lemma HtmlEmailComplete(local: string, ls: seq<string>)
    requires local != "" && All(local, IsHtmlLocalChar)
    requires ls != [] && forall i :: 0 <= i < |ls| ==> IsLabel(ls[i])
    ensures IsHtmlEmail(local + "@" + JoinLabels(ls))
  {
    HtmlEmailDomain(local, JoinLabels(ls));
    HostnameComplete(ls);
  }

  /** Past a well-formed local part, the address stands or falls with its
      domain. */
  lemma HtmlEmailDomain(local: string, d: string)
    requires local != "" && All(local, IsHtmlLocalChar)
    ensures IsHtmlEmail(local + "@" + d) <==> IsHostname(d)
  {
    var s := local + "@" + d;
    assert s == local + ("@" + d);
    PrefixLenOf(local, "@" + d, IsHtmlLocalChar);
    assert s[|local| + 1..] == d;
  }

  lemma HtmlEmailSound(s: string) returns (local: string, ls: seq<string>)
    requires IsHtmlEmail(s)
    ensures local != "" && All(local, IsHtmlLocalChar)
    ensures ls != [] && forall i :: 0 <= i < |ls| ==> IsLabel(ls[i])
    ensures s == local + "@" + JoinLabels(ls)
  {
    var k := PrefixLen(s, IsHtmlLocalChar);
    local := s[..k];
    ls := HostnameSound(s[k + 1..]);
    assert s == s[..k] + "@" + s[k + 1..];
  }

  /** The form's pattern lets a hyphen start a label; the browser does not,
      so "a@-b.com" never reaches the pattern check. */
  lemma DashedLabelBlocked()
    ensures MatchesEmail("a@-b.com")
    ensures !BrowserAccepts("a@-b.com")
  {
    DashedPassesPattern();
    DashedFailsBrowser();
  }

  lemma DashedPassesPattern()
    ensures MatchesEmail("a@-b.com")
  {
    var e := EmailParts("a", "-b", "com");
    assert EmailWellFormed(e) && RenderEmail(e) == "a@-b.com";
  }

  lemma DashedFailsBrowser()
    ensures !BrowserAccepts("a@-b.com")
  {
    assert "a@-b.com" == "a" + "@" + "-b.com";
    HtmlEmailDomain("a", "-b.com");
    LeadingHyphenNotHostname("-b.com");
  }

  /** A hostname cannot start with a hyphen. */
  lemma LeadingHyphenNotHostname(d: string)
    requires d != [] && d[0] == '-'
    ensures !IsHostname(d)
  {
    var n := PrefixLen(d, IsLabelChar);
    assert n > 0 && d[..n][0] == '-';
  }

  /** ... nor two dots in a row. */
  lemma DoubleDotBlocked()
    ensures MatchesEmail("a@b..com")
    ensures !BrowserAccepts("a@b..com")
  {
    DoubleDotPassesPattern();
    DoubleDotFailsBrowser();
  }

  lemma DoubleDotPassesPattern()
    ensures MatchesEmail("a@b..com")
  {
    var e := EmailParts("a", "b.", "com");
    assert EmailWellFormed(e) && RenderEmail(e) == "a@b..com";
  }

  lemma DoubleDotFailsBrowser()
    ensures !BrowserAccepts("a@b..com")
  {
    assert "a@b..com" == "a" + "@" + ("b" + ".." + "com");
    HtmlEmailDomain("a", "b" + ".." + "com");
    DoubleDotNotHostname("b", "com");
  }

  /** An empty label between two dots spoils a hostname. */
  lemma DoubleDotNotHostname(l: string, rest: string)
    requires All(l, IsLabelChar)
    ensures !IsHostname(l + ".." + rest)
  {
    var d := l + ".." + rest;
    assert d == l + (".." + rest);
    PrefixLenOf(l, ".." + rest, IsLabelChar);
    var e := d[|l| + 1..];
    assert e == [] + ("." + rest);
    PrefixLenOf([], "." + rest, IsLabelChar);
    assert e[..0] == [];
  }

  /** Conversely, the browser lets "a@b" through and the pattern stops it:
      each check rejects addresses the other accepts. */
  lemma BareHostStopsAtPattern()
    ensures BrowserAccepts("a@b")
    ensures CheckEmail("a@b") == Some(NoMatch)
  {
    HtmlEmailComplete("a", ["b"]);
    assert "a" + "@" + JoinLabels(["b"]) == "a@b";
  }

  // ----------------------------------------------------------------- phone

  predicate IsPlus(c: char) { c == '+' }
  predicate IsOpen(c: char) { c == '(' }
  predicate IsClose(c: char) { c == ')' }

  /** `[-\s.]` */
  predicate IsSeparator(c: char) {
    c == '-' || c == '.' || IsJsSpace(c)
  }

  /** The pieces of the phone expression in order: optional `+`, optional
      `(`, three digits, optional `)`, optional separator, three digits,
      optional separator, four to six digits. */
  datatype PhoneParts = PhoneParts(plus: bool, open: bool, area: string, close: bool, sep1: Option<char>,
                                   exchange: string, sep2: Option<char>, line: string)

  predicate PhoneWellFormed(p: PhoneParts) {
    |p.area| == 3 && AllDigits(p.area)
    && (p.sep1.Some? ==> IsSeparator(p.sep1.value))
    && |p.exchange| == 3 && AllDigits(p.exchange)
    && (p.sep2.Some? ==> IsSeparator(p.sep2.value))
    && 4 <= |p.line| <= 6 && AllDigits(p.line)
  }

  function Mark(present: bool, c: char): string {
    if present then [c] else []
  }

  function OptChar(o: Option<char>): string {
    match o
    case Some(c) => [c]
    case None => []
  }

  function RenderPhone(p: PhoneParts): string {
    Mark(p.plus, '+') + (Mark(p.open, '(') + (p.area + (Mark(p.close, ')') + (OptChar(p.sep1)
    + (p.exchange + (OptChar(p.sep2) + p.line))))))
  }

  /** The language of the phone expression. */
  ghost predicate MatchesPhone(s: string) {
    exists p :: PhoneWellFormed(p) && RenderPhone(p) == s
  }

  /** An optional character: taken when the next one satisfies `ok`. */
  function Optional(s: string, ok: char -> bool): (r: (Option<char>, string))
    ensures r.0.Some? ==> ok(r.0.value)
    ensures s == OptChar(r.0) + r.1
    ensures r.0.None? ==> r.1 == s && (|s| == 0 || !ok(s[0]))
  {
    if |s| > 0 && ok(s[0]) then (Some(s[0]), s[1..]) else (None, s)
  }

  /** Reads the pieces left to right; no piece can be read in two ways,
      because the optional characters are never digits. */
  function ParsePhone(s: string): (r: Option<PhoneParts>)
    ensures r.Some? ==> PhoneWellFormed(r.value) && RenderPhone(r.value) == s
  {
    var (plus, s1) := Optional(s, IsPlus);
    var (open, s2) := Optional(s1, IsOpen);
    if |s2| < 3 then None
    else
      assert s2[..3] + s2[3..] == s2;
      ParseAfterArea(plus.Some?, open.Some?, s2[..3], s2[3..])
  }

  /** The pieces after the area code, the ones before it being given. */
  function ParseAfterArea(plus: bool, open: bool, area: string, t: string): (r: Option<PhoneParts>)
    ensures r.Some? ==> (PhoneWellFormed(r.value)
      && r.value.plus == plus && r.value.open == open && r.value.area == area
      && RenderPhone(r.value) == Mark(plus, '+') + (Mark(open, '(') + (area + t)))
  {
    var (close, s3) := Optional(t, IsClose);
    var (sep1, s4) := Optional(s3, IsSeparator);
    if |s4| < 3 then None
    else
      var (sep2, line) := Optional(s4[3..], IsSeparator);
      var p := PhoneParts(plus, open, area, close.Some?, sep1, s4[..3], sep2, line);
      assert s4[..3] + (OptChar(sep2) + line) == s4;
      assert Mark(close.Some?, ')') + (OptChar(sep1) + s4) == t;
      if PhoneWellFormed(p) then Some(p) else None
  }

  lemma OptionalMark(b: bool, c: char, rest: string, ok: char -> bool)
    requires |rest| > 0 && !ok(rest[0])
    requires b ==> ok(c)
    ensures Optional(Mark(b, c) + rest, ok) == (if b then Some(c) else None, rest)
  {
    if b {
      assert (Mark(b, c) + rest)[1..] == rest;
    } else {
      assert Mark(b, c) + rest == rest;
    }
  }

  lemma OptionalChar(o: Option<char>, rest: string, ok: char -> bool)
    requires |rest| > 0 && !ok(rest[0])
    requires o.Some? ==> ok(o.value)
    ensures Optional(OptChar(o) + rest, ok) == (o, rest)
  {
    if o.Some? {
      assert (OptChar(o) + rest)[1..] == rest;
    } else {
      assert OptChar(o) + rest == rest;
    }
  }

  lemma ParseAfterAreaComplete(p: PhoneParts)
    requires PhoneWellFormed(p)
    ensures ParseAfterArea(p.plus, p.open, p.area,
      Mark(p.close, ')') + (OptChar(p.sep1) + (p.exchange + (OptChar(p.sep2) + p.line)))) == Some(p)
  {
    AfterAreaSteps(p, p.exchange + (OptChar(p.sep2) + p.line));
  }

  /** The three optional pieces after the area code, one at a time. */
  lemma AfterAreaSteps(p: PhoneParts, s4: string)
    requires PhoneWellFormed(p) && s4 == p.exchange + (OptChar(p.sep2) + p.line)
    ensures Optional(Mark(p.close, ')') + (OptChar(p.sep1) + s4), IsClose)
      == (if p.close then Some(')') else None, OptChar(p.sep1) + s4)
    ensures Optional(OptChar(p.sep1) + s4, IsSeparator) == (p.sep1, s4)
    ensures |s4| >= 3 && s4[..3] == p.exchange && Optional(s4[3..], IsSeparator) == (p.sep2, p.line)
  {
    var s3 := OptChar(p.sep1) + s4;
    OptionalMark(p.close, ')', s3, IsClose);
    OptionalChar(p.sep1, s4, IsSeparator);
    assert s4[..3] == p.exchange && s4[3..] == OptChar(p.sep2) + p.line;
    OptionalChar(p.sep2, p.line, IsSeparator);
  }

  /** The recogniser finds the pieces of every string the expression describes. */
  lemma ParsePhoneComplete(p: PhoneParts)
    requires PhoneWellFormed(p)
    ensures ParsePhone(RenderPhone(p)) == Some(p)
  {
    var t := Mark(p.close, ')') + (OptChar(p.sep1) + (p.exchange + (OptChar(p.sep2) + p.line)));
    var s2 := p.area + t;
    var s1 := Mark(p.open, '(') + s2;
    OptionalMark(p.plus, '+', s1, IsPlus);
    OptionalMark(p.open, '(', s2, IsOpen);
    assert s2[..3] == p.area && s2[3..] == t;
    ParseAfterAreaComplete(p);
  }

  predicate IsPhone(s: string) {
    ParsePhone(s).Some?
  }

  /** The recogniser accepts exactly the language of the expression. */
  lemma IsPhoneIff(s: string)
    ensures IsPhone(s) <==> MatchesPhone(s)
  {
    if MatchesPhone(s) {
      var p :| PhoneWellFormed(p) && RenderPhone(p) == s;
      ParsePhoneComplete(p);
    }
  }

  /** The number of decimal digits in `s`. */
  function DigitCount(s: string): (n: nat)
    ensures n <= |s|
  {
    if s == [] then 0 else (if IsDigit(s[0]) then 1 else 0) + DigitCount(s[1..])
  }

  lemma {:induction false} DigitCountAppend(a: string, b: string)
    ensures DigitCount(a + b) == DigitCount(a) + DigitCount(b)
  {
    if a != [] {
      assert (a + b)[1..] == a[1..] + b;
      DigitCountAppend(a[1..], b);
    } else {
      assert a + b == b;
    }
  }

  lemma {:induction false} DigitCountAllDigits(s: string)
    requires AllDigits(s)
    ensures DigitCount(s) == |s|
  {
    if s != [] {
      DigitCountAllDigits(s[1..]);
    }
  }

  lemma NoDigits(s: string)
    requires |s| <= 1 && (|s| == 1 ==> !IsDigit(s[0]))
    ensures DigitCount(s) == 0
  {
    if |s| == 1 {
      assert s[1..] == [];
    }
  }

  /** The digits of a phone number are those of its three groups. */
  lemma {:induction false} PhonePartsDigits(p: PhoneParts)
    requires PhoneWellFormed(p)
    ensures DigitCount(RenderPhone(p)) == |p.area| + |p.exchange| + |p.line|
  {
    DigitCountAllDigits(p.area);
    DigitCountAllDigits(p.exchange);
    DigitCountAllDigits(p.line);
    NoDigits(Mark(p.plus, '+'));
    NoDigits(Mark(p.open, '('));
    NoDigits(Mark(p.close, ')'));
    NoDigits(OptChar(p.sep1));
    NoDigits(OptChar(p.sep2));
    var t4 := OptChar(p.sep2) + p.line;
    DigitCountAppend(OptChar(p.sep2), p.line);
    var t3 := p.exchange + t4;
    DigitCountAppend(p.exchange, t4);
    var t2 := OptChar(p.sep1) + t3;
    DigitCountAppend(OptChar(p.sep1), t3);
    var t1 := Mark(p.close, ')') + t2;
    DigitCountAppend(Mark(p.close, ')'), t2);
    var t0 := p.area + t1;
    DigitCountAppend(p.area, t1);
    DigitCountAppend(Mark(p.open, '('), t0);
    DigitCountAppend(Mark(p.plus, '+'), Mark(p.open, '(') + t0);
  }

  /** Every accepted phone number carries ten to twelve digits. */
  lemma PhoneDigits(s: string)
    requires IsPhone(s)
    ensures 10 <= DigitCount(s) <= 12
  {
    PhonePartsDigits(ParsePhone(s).value);
  }

  /** A ten-digit mobile number written without a country code is accepted. */
  lemma LocalMobileAccepted()
    ensures IsPhone("9812345678")
  {
    var p := PhoneParts(false, false, "981", false, None, "234", None, "5678");
    assert RenderPhone(p) == "9812345678";
    ParsePhoneComplete(p);
  }

  /** The same number with the "+977" country code has thirteen digits and
      is rejected. */
  lemma CountryCodeRejected()
    ensures !IsPhone("+977 9812345678")
  {
    CountryCodeDigits();
    TooManyDigits("+977 9812345678");
  }

  lemma TooManyDigits(s: string)
    requires DigitCount(s) > 12
    ensures !IsPhone(s)
  {
    if IsPhone(s) {
      PhoneDigits(s);
    }
  }

  lemma CountryCodeDigits()
    ensures DigitCount("+977 9812345678") == 13
  {
    CountryCodeSplit();
    NoDigits("+");
    NoDigits(" ");
    DigitCountAllDigits("977");
    DigitCountAllDigits("9812345678");
    DigitCountAppend(" ", "9812345678");
    DigitCountAppend("977", " " + "9812345678");
    DigitCountAppend("+", "977" + (" " + "9812345678"));
  }

  lemma CountryCodeSplit()
    ensures "+977 9812345678" == "+" + ("977" + (" " + "9812345678"))
  {
  }

  // ------------------------------------------------------------ validation

  /** The error a field reports, in the order the form library checks the
      rules: `required` first, then `minLength`, then `pattern`. */
  datatype FieldError = Required | TooShort | NoMatch

  /** `required`: the empty string is missing. */
  function CheckRequired(s: string): (r: Option<FieldError>)
    ensures r.None? <==> s != ""
    ensures r.Some? ==> r.value == Required
  {
    if s == "" then Some(Required) else None
  }

  /** `required` plus `minLength: 6`, which compares the string's `length`
      in UTF-16 code units. */
  function CheckPassword(s: string): (r: Option<FieldError>)
    ensures r.None? <==> Utf16Length(s) >= 6
    ensures r == Some(Required) <==> s == ""
    ensures r == Some(TooShort) <==> s != "" && Utf16Length(s) < 6
    ensures |s| >= 6 ==> r.None?
  {
    if s == "" then Some(Required) else if Utf16Length(s) < 6 then Some(TooShort) else None
  }

  /** Three characters outside the Basic Multilingual Plane make six code
      units, which is long enough. */
  lemma AstralPasswordAccepted()
    ensures |"\U{1F600}\U{1F600}\U{1F600}"| == 3
    ensures CheckPassword("\U{1F600}\U{1F600}\U{1F600}").None?
  {
    var s := "\U{1F600}\U{1F600}\U{1F600}";
    assert s[1..][1..][1..] == [];
  }

  /** `required` plus the e-mail pattern. */
  function CheckEmail(s: string): (r: Option<FieldError>)
    ensures r.None? <==> MatchesEmail(s)
    ensures r == Some(Required) <==> s == ""
  {
    IsEmailIff(s);
    if s == "" then Some(Required) else if !IsEmail(s) then Some(NoMatch) else None
  }

  /** `required` plus the phone pattern. */
  function CheckPhone(s: string): (r: Option<FieldError>)
    ensures r.None? <==> MatchesPhone(s)
    ensures r == Some(Required) <==> s == ""
  {
    IsPhoneIff(s);
    if s == "" then Some(Required) else if !IsPhone(s) then Some(NoMatch) else None
  }
}
