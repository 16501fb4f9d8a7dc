/**
 * The field rules every manager applies before touching the tables: the
 * validators of customer_manager.py, vehicle_manager.py and service_manager.py,
 * the next-service-date rule and the tax rule. They live in one module because
 * the store's row invariant is stated with them.
 */
module DomainRules {
  import opened Wrappers
  import opened Text
  import opened Calendar
  import opened Config

  /** The field holds at least one non-whitespace character. */
  predicate HasText(s: string)
  {
    !IsBlank(s)
  }

  /** `if x:` on an optional string argument: supplied and not empty. */
  predicate Given(x: Option<string>)
  {
    x.Some? && x.value != []
  }

  /** `if x and x.strip():` on an optional string argument: supplied and not blank. */
  predicate Filled(x: Option<string>)
  {
    x.Some? && HasText(x.value)
  }

  /** `s and s.strip()` is truthy exactly when the field has text. */
  lemma HasTextIffStripNonEmpty(s: string)
    ensures HasText(s) <==> |Strip(s)| > 0
  {
    BlankIffStripsToEmpty(s);
  }

  // ---------------------------------------------------------------- phone

  /** One character of the class `[\d\s\-\(\)]`. */
  predicate IsPhoneChar(c: char)
  {
    IsDigit(c) || IsSpace(c) || c == '-' || c == '(' || c == ')'
  }

  predicate AllPhoneChars(s: string)
  {
    forall i | 0 <= i < |s| :: IsPhoneChar(s[i])
  }

  /** `re.match(r'^\+?[\d\s\-\(\)]+$', phone)`, deciding on the first character. */
  function ValidatePhone(p: string): bool
  {
    if |p| > 0 && p[0] == '+' then |p| > 1 && AllPhoneChars(p[1..])
    else |p| > 0 && AllPhoneChars(p)
  }

  /** The pattern read as a grammar: `k` characters of `+` (k is 0 or 1), then the body. */
  predicate PhoneSplitAt(p: string, k: int)
    requires 0 <= k <= 1
  {
    k < |p| && (k == 1 ==> p[0] == '+') && AllPhoneChars(p[k..])
  }

  /** The validator accepts exactly the strings the pattern describes. */
  lemma PhoneMatchesPattern(p: string)
    ensures ValidatePhone(p) <==> exists k | 0 <= k <= 1 :: PhoneSplitAt(p, k)
  {
    if ValidatePhone(p) {
      if p[0] == '+' {
        assert PhoneSplitAt(p, 1);
      } else {
        assert p[0..] == p;
        assert PhoneSplitAt(p, 0);
      }
    } else {
      forall k | 0 <= k <= 1 ensures !PhoneSplitAt(p, k) {
        if k == 0 && |p| > 0 {
          assert p[0..] == p;
          if p[0] == '+' {
            assert !IsPhoneChar(p[0]);
          }
        }
      }
    }
  }

  /** Boundary cases: a lone `+` and the empty string fail, bare punctuation passes. */
  lemma PhoneExamples()
    ensures ValidatePhone("()") && ValidatePhone("+1 (555) 010-9999")
    ensures !ValidatePhone("+") && !ValidatePhone("") && !ValidatePhone("555-CALL")
    ensures ValidatePhone("   ") && !HasText("   ")
  {
    assert IsSpace("   "[0]) && IsSpace("   "[1]) && IsSpace("   "[2]);
    assert !AllPhoneChars("555-CALL") by {
      assert !IsPhoneChar("555-CALL"[4]);
    }
  }

  // ---------------------------------------------------------------- email

  /** `[a-zA-Z0-9._%+-]`. */
  predicate IsLocalChar(c: char)
  {
    IsAsciiLetter(c) || IsDigit(c) || c == '.' || c == '_' || c == '%' || c == '+' || c == '-'
  }

  /** `[a-zA-Z0-9.-]`. */
  predicate IsDomainChar(c: char)
  {
    IsAsciiLetter(c) || IsDigit(c) || c == '.' || c == '-'
  }

  predicate AllLocalChars(s: string)
  {
    forall i | 0 <= i < |s| :: IsLocalChar(s[i])
  }

  predicate AllDomainChars(s: string)
  {
    forall i | 0 <= i < |s| :: IsDomainChar(s[i])
  }

  predicate AllLetters(s: string)
  {
    forall i | 0 <= i < |s| :: IsAsciiLetter(s[i])
  }

  /** The position of the first `c` in `s`, or -1. */
  function FirstIndexOf(s: string, c: char): (r: int)
    ensures -1 <= r < |s|
    ensures r >= 0 ==> s[r] == c && forall k | 0 <= k < r :: s[k] != c
    ensures r == -1 ==> forall k | 0 <= k < |s| :: s[k] != c
  {
    if s == [] then -1
    else if s[0] == c then 0
    else
      var r := FirstIndexOf(s[1..], c);
      if r == -1 then -1 else r + 1
  }

  /** The position of the last `c` in `s`, or -1. */
  function LastIndexOf(s: string, c: char): (r: int)
    ensures -1 <= r < |s|
    ensures r >= 0 ==> s[r] == c && forall k | r < k < |s| :: s[k] != c
    ensures r == -1 ==> forall k | 0 <= k < |s| :: s[k] != c
  {
    if s == [] then -1
    else if s[|s| - 1] == c then |s| - 1
    else LastIndexOf(s[..|s| - 1], c)
  }

  /**
   * `[a-zA-Z0-9._%+-]+@[a-zA-Z0-9.-]+\.[a-zA-Z]{2,}` over all of `s`, with the
   * `@` at index `i` and the final `.` at index `j`.
   */
  predicate EmailSplitAt(s: string, i: int, j: int)
    requires 0 <= i < j < |s|
  {
    0 < i && i + 1 < j && j + 3 <= |s| && s[i] == '@' && s[j] == '.'
    && AllLocalChars(s[..i]) && AllDomainChars(s[i + 1..j]) && AllLetters(s[j + 1..])
  }

  /** The regular expression, as a statement about some split of `s`. */
  predicate EmailPattern(s: string)
  {
    exists i, j | 0 <= i < j < |s| :: EmailSplitAt(s, i, j)
  }

  /**
   * The match without the trailing newline: the split is at the first `@`
   * (the local part cannot contain one) and at the last `.` (the final label
   * cannot contain one).
   */
  function MatchesEmailBody(s: string): bool
  {
    var i := FirstIndexOf(s, '@');
    var j := LastIndexOf(s, '.');
    0 < i && i + 1 < j && j + 3 <= |s|
    && AllLocalChars(s[..i]) && AllDomainChars(s[i + 1..j]) && AllLetters(s[j + 1..])
  }

  lemma EmailBodyMatchesPattern(s: string)
    ensures MatchesEmailBody(s) <==> EmailPattern(s)
  {
    var i := FirstIndexOf(s, '@');
    var j := LastIndexOf(s, '.');
    if MatchesEmailBody(s) {
      assert EmailSplitAt(s, i, j);
    }
    if EmailPattern(s) {
      var a, b :| 0 <= a < b < |s| && EmailSplitAt(s, a, b);
      forall k | 0 <= k < a ensures s[k] != '@' {
        assert IsLocalChar(s[..a][k]);
      }
      assert i == a;
      forall k | b < k < |s| ensures s[k] != '.' {
        assert IsAsciiLetter(s[b + 1..][k - b - 1]);
      }
      assert j == b;
    }
  }

  /**
   * `validate_email`: an empty address is accepted; otherwise `re.match` with
   * the pattern ending in `$`, which also matches before one final newline.
   */
  function ValidateEmail(e: string): bool
  {
    e == []
    || MatchesEmailBody(e)
    || (|e| > 0 && e[|e| - 1] == '\n' && MatchesEmailBody(e[..|e| - 1]))
  }

  /** The validator accepts the empty string and exactly what the pattern describes. */
  lemma EmailMatchesPattern(e: string)
    ensures ValidateEmail(e) <==>
      e == [] || EmailPattern(e) || (|e| > 0 && e[|e| - 1] == '\n' && EmailPattern(e[..|e| - 1]))
  {
    EmailBodyMatchesPattern(e);
    if |e| > 0 {
      EmailBodyMatchesPattern(e[..|e| - 1]);
    }
  }

  /** A split that fits the pattern is accepted, with or without one final newline. */
  lemma AcceptedAt(s: string, i: int, j: int)
    requires 0 <= i < j < |s| && EmailSplitAt(s, i, j)
    ensures ValidateEmail(s) && ValidateEmail(s + "\n")
  {
    EmailBodyMatchesPattern(s);
    assert (s + "\n")[..|s|] == s;
  }

  /** The empty address passes, and `$` lets one final newline through. */
  lemma EmailExamples()
    ensures ValidateEmail("") && ValidateEmail("a@b.co\n")
  {
    var short := "a@b.co";
    assert EmailSplitAt(short, 1, 3);
    AcceptedAt(short, 1, 3);
    assert short + "\n" == "a@b.co\n";
  }

  /** An ordinary address using `+`, `.` and `-` passes. */
  lemma EmailExampleLong()
    ensures ValidateEmail("ann.lee+car@mail-1.example.com")
  {
    var long := "ann.lee+car@mail-1.example.com";
    assert long[..11] == "ann.lee+car" && long[12..26] == "mail-1.example" && long[27..] == "com";
    assert EmailSplitAt(long, 11, 26);
    AcceptedAt(long, 11, 26);
  }

  /** A one-letter final label, an empty local part and a second `@` are refused. */
  lemma EmailRejections()
    ensures !ValidateEmail("a@b.c") && !ValidateEmail("@b.co") && !ValidateEmail("a@b@c.co")
  {
    assert FirstIndexOf("@b.co", '@') == 0;
    assert LastIndexOf("a@b.c", '.') == 3;
    var twice := "a@b@c.co";
    assert FirstIndexOf(twice, '@') == 1;
    assert LastIndexOf(twice, '.') == 5;
    assert twice[2..5][1] == '@';
  }

  // ----------------------------------------------------------------- year

  /** `validate_year`: `int(year)` succeeds and lies in 1900..2030. */
  function ValidateYear(year: string): bool
  {
    match ParseInt(year)
    case None => false
    case Some(y) => 1900 <= y <= 2030
  }

  /** The decimal text of a year is valid exactly when the year is in range. */
  lemma YearRangeExact(y: int)
    ensures ValidateYear(IntToString(y)) <==> 1900 <= y <= 2030
  {
    ParseIntRoundTrip(y);
  }

  // ---------------------------------------------------------- licence plate

  /** `validate_license_plate`: non-empty after trimming. */
  function ValidateLicensePlate(plate: string): (ok: bool)
    ensures ok <==> |Strip(plate)| > 0
  {
    HasTextIffStripNonEmpty(plate);
    HasText(plate)
  }

  // ------------------------------------------------------------------ date

  /** `validate_date`: `strptime(date_str, '%Y-%m-%d')` succeeds. */
  predicate ValidateDate(s: string)
  {
    ParseDate(s).Some?
  }

  /** Every real date, written `YYYY-MM-DD`, is accepted; so is a one-digit month. */
  lemma ValidateDateAcceptsIso(d: Date)
    requires IsValidDate(d)
    ensures ValidateDate(FormatDate(d))
    ensures ValidateDate("2024-1-5") && !ValidateDate("2023-02-29") && !ValidateDate("2024-01-15x")
  {
    FormatParseRoundTrip(d);
    ParserAcceptsNonIsoForms();
  }

  // ------------------------------------------------------------------ cost

  /** What `float(value)` makes of an input: a number, or ValueError. */
  datatype Numeric = Num(value: real) | NonNumeric

  /** `validate_cost`: converts to a number that is not negative. */
  predicate ValidateCost(c: Numeric)
  {
    c.Num? && c.value >= 0.0
  }

  /**
   * The bare `except` of `validate_cost` turns every failure of `float()`
   * into False; zero is a valid cost and any negative amount is not.
   */
  lemma CostValidationCases(c: Numeric)
    ensures c.NonNumeric? ==> !ValidateCost(c)
    ensures c.Num? ==> (ValidateCost(c) <==> 0.0 <= c.value)
    ensures ValidateCost(Num(0.0)) && !ValidateCost(Num(-0.01))
  {
  }

  /** `subtotal + subtotal * TAX_RATE`, the total stored with a service. */
  function TotalWithTax(labor: real, parts: real): (total: real)
    ensures total == (labor + parts) * (1.0 + TaxRate)
  {
    var subtotal := labor + parts;
    subtotal + subtotal * TaxRate
  }

  // ---------------------------------------------------- next service date

  /** The service date plus SERVICE_INTERVAL_DAYS, or None past year 9999. */
  function NextServiceDate(d: Date): (r: Option<Date>)
    requires IsValidDate(d)
    ensures r.Some? <==> Ordinal(d) + ServiceIntervalDays <= Ordinal(LastDate)
    ensures r.Some? ==> IsValidDate(r.value) && Ordinal(r.value) - Ordinal(d) == ServiceIntervalDays
  {
    AddDaysChecked(d, ServiceIntervalDays)
  }

  /**
   * `calculate_next_service_date`: parse, add the interval, format; None when
   * the text is not a date or the sum overflows the calendar.
   */
  function CalculateNextServiceDate(s: string): (r: Option<string>)
    ensures r.Some? <==> ParseDate(s).Some? && NextServiceDate(ParseDate(s).value).Some?
    ensures r.Some? ==>
      ParseDate(r.value).Some?
      && Ordinal(ParseDate(r.value).value) == Ordinal(ParseDate(s).value) + ServiceIntervalDays
    ensures r.Some? ==>
      IsIsoExtendedDate(r.value) && r.value == FormatDate(NextServiceDate(ParseDate(s).value).value)
  {
    match ParseDate(s)
    case None => None
    case Some(d) =>
      match NextServiceDate(d)
      case None => None
      case Some(n) =>
        FormatParseRoundTrip(n);
        FormatIsIso(n);
        Some(FormatDate(n))
  }

  /** Ninety days after 2024-01-15, across the leap day, is 2024-04-14. */
  lemma NextServiceDateExample()
    ensures NextServiceDate(Date(2024, 1, 15)) == Some(Date(2024, 4, 14))
  {
    var n := Date(2024, 4, 14);
    var m := NextServiceDate(Date(2024, 1, 15)).value;
    assert Ordinal(n) == Ordinal(Date(2024, 1, 15)) + 90;
    OrdinalOrder(m, n);
  }

  /** The texts of the two dates of the worked example. */
  lemma ExampleDateTexts()
    ensures ParseDate("2024-01-15") == Some(Date(2024, 1, 15))
    ensures FormatDate(Date(2024, 4, 14)) == "2024-04-14"
  {
    ParseIsoDate("2024-01-15");
  }

  /** The worked example: a service on 2024-01-15 is next due on 2024-04-14. */
  lemma NextServiceExample()
    ensures CalculateNextServiceDate("2024-01-15") == Some("2024-04-14")
  {
    ExampleDateTexts();
    NextServiceDateExample();
  }

  /** No next date is computed when the sum passes 9999-12-31. */
  lemma NextServiceNone()
    ensures CalculateNextServiceDate("9999-12-01") == None
  {
    ParseIsoDate("9999-12-01");
    var d := Date(9999, 12, 1);
    assert IsoFields("9999-12-01") == d;
    assert Ordinal(d) + ServiceIntervalDays > Ordinal(LastDate);
  }

  /** A text that names no date has no next service date. */
  lemma NextServiceOfNonDate()
    ensures CalculateNextServiceDate("2024-02-30") == None
  {
    ParseIsoDate("2024-02-30");
    assert !IsValidDate(IsoFields("2024-02-30"));
  }
}
