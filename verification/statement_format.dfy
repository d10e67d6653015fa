/**
 * The two statement layouts of nationwide_parser/statement.py (and of its
 * earlier draft statements.py): their header line, field arity, banner
 * pattern, row parser, balance-chain direction and output ordering, and
 * the field parsers for money and dates.
 */
module StatementFormats {
  import opened Outcomes
  import opened Digits
  import opened Utils
  import opened Dates
  import opened Transactions

  datatype TransactionOrder = Chronological | ReverseChronological

  /** `StatementReader`: the closed set of known layouts. */
  datatype StatementReader = Midata | Nationwide

  /** Why a field or a row could not be parsed (a Python ValueError, IndexError or KeyError). */
  datatype FieldError =
    | WrongFieldCount(expected: nat, received: nat)
    | MissingCharacter
    | NoPoundSign
    | NotAnInteger
    | UnknownMonth
    | InvalidDate
    | PaidOutAndPaidIn

  function Name(fmt: StatementReader): string
  {
    match fmt
    case Midata => "Midata"
    case Nationwide => "Nationwide statement"
  }

  function Columns(fmt: StatementReader): seq<string>
  {
    match fmt
    case Midata => ["\"Date\"", "\"Type\"", "\"Merchant/Description\"", "\"Debit/Credit\"", "\"Balance\""]
    case Nationwide => ["\"Date\"", "\"Transaction type\"", "\"Description\"", "\"Paid out\"", "\"Paid in\"", "\"Balance\""]
  }

  function Join(columns: seq<string>): string
    requires |columns| > 0
  {
    if |columns| == 1 then columns[0] else Join(columns[..|columns| - 1]) + "," + columns[|columns| - 1]
  }

  /** The header line that starts the tabular data: the column names joined by commas. */
  function Header(fmt: StatementReader): (h: string)
    ensures CountChar(h, ',') == |Columns(fmt)| - 1
  {
    JoinedCommas(Columns(fmt));
    Join(Columns(fmt))
  }

  function Ordering(fmt: StatementReader): TransactionOrder
  {
    match fmt
    case Midata => ReverseChronological
    case Nationwide => Chronological
  }

  function CountChar(s: string, c: char): nat
  {
    if |s| == 0 then 0 else (if s[0] == c then 1 else 0) + CountChar(s[1..], c)
  }

  lemma {:induction false} CountCharAppend(a: string, b: string, c: char)
    ensures CountChar(a + b, c) == CountChar(a, c) + CountChar(b, c)
  {
    if |a| > 0 {
      assert (a + b)[1..] == a[1..] + b;
      CountCharAppend(a[1..], b, c);
    } else {
      assert a + b == b;
    }
  }

  lemma {:induction false} CountCharAbsent(s: string, c: char)
    requires c !in s
    ensures CountChar(s, c) == 0
  {
    if |s| > 0 {
      assert s[0] != c;
      assert forall k :: 0 <= k < |s| - 1 ==> s[1..][k] == s[k + 1];
      CountCharAbsent(s[1..], c);
    }
  }

  lemma {:induction false} JoinedCommas(columns: seq<string>)
    requires |columns| > 0 && forall k :: 0 <= k < |columns| ==> ',' !in columns[k]
    ensures CountChar(Join(columns), ',') == |columns| - 1
  {
    if |columns| == 1 {
      CountCharAbsent(columns[0], ',');
    } else {
      var init := columns[..|columns| - 1];
      JoinedCommas(init);
      CountCharAppend(Join(init) + ",", columns[|columns| - 1], ',');
      CountCharAppend(Join(init), ",", ',');
      CountCharAbsent(columns[|columns| - 1], ',');
      assert CountChar(",", ',') == 1;
    }
  }

  /** `header.count(",") + 1`: five fields for Midata, six for Nationwide. */
  function FieldCount(fmt: StatementReader): (n: nat)
    ensures n == |Columns(fmt)|
    ensures n == if fmt == Midata then 5 else 6
  {
    CountChar(Header(fmt), ',') + 1
  }

  // ---------------------------------------------------------------------
  // get_account_description: the two banner patterns, searched leftmost-first
  // ---------------------------------------------------------------------

  datatype CharClass = NotQuote | NotQuoteNorStar | Star | AsciiDigit

  predicate InClass(c: char, cls: CharClass)
  {
    match cls
    case NotQuote => c != '"'
    case NotQuoteNorStar => c != '"' && c != '*'
    case Star => c == '*'
    case AsciiDigit => IsDigit(c)
  }

  /** Length of the longest run of class members starting at i (a greedy `[...]*`). */
  function RunLength(s: string, i: nat, cls: CharClass): (n: nat)
    requires i <= |s|
    ensures i + n <= |s|
    decreases |s| - i
  {
    if i == |s| || !InClass(s[i], cls) then 0 else 1 + RunLength(s, i + 1, cls)
  }

  /** The run holds only class members and stops at a non-member or at the end. */
  lemma {:induction false} RunLengthIsRun(s: string, i: nat, cls: CharClass)
    requires i <= |s|
    ensures forall k :: i <= k < i + RunLength(s, i, cls) ==> InClass(s[k], cls)
    ensures i + RunLength(s, i, cls) < |s| ==> !InClass(s[i + RunLength(s, i, cls)], cls)
    decreases |s| - i
  {
    if i < |s| && InClass(s[i], cls) {
      RunLengthIsRun(s, i + 1, cls);
    }
  }

  /** A run is as long as the class members before the first non-member. */
  lemma {:induction false} RunLengthOf(s: string, i: nat, n: nat, cls: CharClass)
    requires i + n <= |s|
    requires forall k :: i <= k < i + n ==> InClass(s[k], cls)
    requires i + n < |s| ==> !InClass(s[i + n], cls)
    ensures RunLength(s, i, cls) == n
    decreases n
  {
    if n > 0 {
      RunLengthOf(s, i + 1, n - 1, cls);
    }
  }

  predicate StartsWithAt(s: string, i: nat, p: string)
  {
    i + |p| <= |s| && s[i..i + |p|] == p
  }

  const MidataBannerPrefix: string := "\"Account Number:\",\""
  const NationwideBannerPrefix: string := "\"Account Name:\",\""

  /**
   * The captured group when the banner pattern matches at position i:
   * Midata `"Account Number:","([^"]+)"`,
   * Nationwide `"Account Name:","[^"*]*(\*+\d+)"`.
   * Every quantifier is followed by a character its class excludes, so the
   * greedy run is the only way to match and no backtracking is needed.
   */
  function MatchAt(fmt: StatementReader, line: string, i: nat): Option<string>
    requires i <= |line|
  {
    match fmt
    case Midata => MidataMatchAt(line, i)
    case Nationwide => NationwideMatchAt(line, i)
  }

  function MidataMatchAt(line: string, i: nat): Option<string>
    requires i <= |line|
  {
    if !StartsWithAt(line, i, MidataBannerPrefix) then None
    else
      var j := i + |MidataBannerPrefix|;
      var n := RunLength(line, j, NotQuote);
      if n >= 1 && j + n < |line| && line[j + n] == '"' then Some(line[j..j + n]) else None
  }

  function NationwideMatchAt(line: string, i: nat): Option<string>
    requires i <= |line|
  {
    if !StartsWithAt(line, i, NationwideBannerPrefix) then None
    else
      var j := i + |NationwideBannerPrefix|;
      var free := RunLength(line, j, NotQuoteNorStar);
      var stars := RunLength(line, j + free, Star);
      var digits := RunLength(line, j + free + stars, AsciiDigit);
      var end := j + free + stars + digits;
      if stars >= 1 && digits >= 1 && end < |line| && line[end] == '"' then Some(line[j + free..end]) else None
  }

  predicate QuoteFree(s: string) { forall k :: 0 <= k < |s| ==> s[k] != '"' }

  /**
   * The Midata pattern matches at i with group `id` exactly when the line
   * holds, from i, the prefix, then id, then a closing quote.
   */
  lemma MidataMatchIsPattern(line: string, i: nat, id: string)
    requires i <= |line|
    ensures MatchAt(Midata, line, i) == Some(id)
        <==> && StartsWithAt(line, i, MidataBannerPrefix)
             && StartsWithAt(line, i + |MidataBannerPrefix|, id)
             && i + |MidataBannerPrefix| + |id| < |line|
             && line[i + |MidataBannerPrefix| + |id|] == '"'
             && |id| >= 1 && QuoteFree(id)
  {
    var j := i + |MidataBannerPrefix|;
    if StartsWithAt(line, i, MidataBannerPrefix) {
      RunLengthIsRun(line, j, NotQuote);
    }
    if && StartsWithAt(line, i, MidataBannerPrefix) && StartsWithAt(line, j, id)
       && j + |id| < |line| && line[j + |id|] == '"' && |id| >= 1 && QuoteFree(id)
    {
      assert forall k :: j <= k < j + |id| ==> line[k] == id[k - j];
      RunLengthOf(line, j, |id|, NotQuote);
    }
  }

  /** `\*+\d+`: one or more stars followed by one or more ASCII digits, and nothing else. */
  predicate IsMaskedNumber(id: string)
  {
    var stars := RunLength(id, 0, Star);
    1 <= stars < |id| && forall m :: stars <= m < |id| ==> IsDigit(id[m])
  }

  /**
   * Whenever the line holds, from i, the prefix, `free` characters that are
   * neither quotes nor stars, `stars` stars, `digits` digits and a closing
   * quote, the Nationwide pattern captures the stars and digits.
   */
  lemma NationwidePatternMatches(line: string, i: nat, free: nat, stars: nat, digits: nat)
    requires StartsWithAt(line, i, NationwideBannerPrefix)
    requires i + |NationwideBannerPrefix| + free + stars + digits < |line|
    requires forall k :: i + |NationwideBannerPrefix| <= k < i + |NationwideBannerPrefix| + free
               ==> line[k] != '"' && line[k] != '*'
    requires stars >= 1
    requires forall k :: i + |NationwideBannerPrefix| + free <= k < i + |NationwideBannerPrefix| + free + stars
               ==> line[k] == '*'
    requires digits >= 1
    requires forall k :: i + |NationwideBannerPrefix| + free + stars <= k < i + |NationwideBannerPrefix| + free + stars + digits
               ==> IsDigit(line[k])
    requires line[i + |NationwideBannerPrefix| + free + stars + digits] == '"'
    ensures MatchAt(Nationwide, line, i)
         == Some(line[i + |NationwideBannerPrefix| + free..i + |NationwideBannerPrefix| + free + stars + digits])
  {
    var j := i + |NationwideBannerPrefix|;
    RunLengthOf(line, j, free, NotQuoteNorStar);
    RunLengthOf(line, j + free, stars, Star);
    RunLengthOf(line, j + free + stars, digits, AsciiDigit);
    assert NationwideMatchAt(line, i) == Some(line[j + free..j + free + stars + digits]);
  }

  /** Whatever the Nationwide pattern captures is a masked account number. */
  lemma NationwideMatchIsMaskedNumber(line: string, i: nat)
    requires i <= |line| && MatchAt(Nationwide, line, i).Some?
    ensures StartsWithAt(line, i, NationwideBannerPrefix)
    ensures IsMaskedNumber(MatchAt(Nationwide, line, i).value)
  {
    var j := i + |NationwideBannerPrefix|;
    var free := RunLength(line, j, NotQuoteNorStar);
    var start := j + free;
    var stars := RunLength(line, start, Star);
    var digits := RunLength(line, start + stars, AsciiDigit);
    var id := line[start..start + stars + digits];
    RunLengthIsRun(line, start, Star);
    RunLengthIsRun(line, start + stars, AsciiDigit);
    assert MatchAt(Nationwide, line, i) == NationwideMatchAt(line, i) == Some(id);
    assert forall m :: 0 <= m < |id| ==> id[m] == line[start + m];
    RunLengthOf(id, 0, stars, Star);
  }

  /** Python's `re.search` from position i onwards: the leftmost match wins. */
  function SearchFrom(fmt: StatementReader, line: string, i: nat): (r: Option<string>)
    requires i <= |line| + 1
    ensures r.Some? ==> exists k :: i <= k <= |line| && MatchAt(fmt, line, k) == r
                          && forall m :: i <= m < k ==> MatchAt(fmt, line, m).None?
    ensures r.None? ==> forall k :: i <= k <= |line| ==> MatchAt(fmt, line, k).None?
    decreases |line| + 1 - i
  {
    if i > |line| then None
    else
      match MatchAt(fmt, line, i)
      case Some(id) => Some(id)
      case None => SearchFrom(fmt, line, i + 1)
  }

  /**
   * `get_account_description`: the group of the leftmost match of the
   * layout's banner pattern in the line, or None when there is none.
   */
  function GetAccountDescription(fmt: StatementReader, line: string): (r: Option<string>)
    ensures r.Some? ==> exists k :: 0 <= k <= |line| && MatchAt(fmt, line, k) == r
                          && forall m :: 0 <= m < k ==> MatchAt(fmt, line, m).None?
    ensures r.None? ==> forall k :: 0 <= k <= |line| ==> MatchAt(fmt, line, k).None?
  {
    SearchFrom(fmt, line, 0)
  }

  // ---------------------------------------------------------------------
  // field parsers
  // ---------------------------------------------------------------------

  /** Python's `s[lo:hi]` for 0 <= lo <= hi: clipped to the string. */
  function Slice(s: string, lo: nat, hi: nat): (r: string)
    requires lo <= hi
    ensures |r| <= hi - lo
    ensures hi <= |s| ==> r == s[lo..hi]
    ensures lo >= |s| ==> r == []
  {
    if lo >= |s| then [] else s[lo..if hi <= |s| then hi else |s|]
  }

  /** Python's `s[lo:]`. */
  function SliceFrom(s: string, lo: nat): (r: string)
    ensures lo <= |s| ==> r == s[lo..]
    ensures lo > |s| ==> r == []
  {
    if lo >= |s| then [] else s[lo..]
  }

  /** `int(s)`: a ValueError unless s is a non-empty string of digits. */
  function ParseInteger(s: string): (r: Result<nat, FieldError>)
    ensures r.Ok? <==> |s| > 0 && AllDigits(s)
    ensures r.Ok? ==> r.value == Value(s)
    ensures r.Err? ==> r.error == NotAnInteger
  {
    match ParseNatural(s)
    case None => Err(NotAnInteger)
    case Some(n) => Ok(n)
  }

  /** `s.translate(str.maketrans({".": ""}))`: every full stop deleted. */
  function RemoveFullStops(s: string): (r: string)
    ensures forall k :: 0 <= k < |r| ==> r[k] != '.'
  {
    if |s| == 0 then [] else (if s[0] == '.' then [] else [s[0]]) + RemoveFullStops(s[1..])
  }

  lemma {:induction false} RemoveFullStopsAppend(a: string, b: string)
    ensures RemoveFullStops(a + b) == RemoveFullStops(a) + RemoveFullStops(b)
  {
    if |a| > 0 {
      assert (a + b)[1..] == a[1..] + b;
      RemoveFullStopsAppend(a[1..], b);
    } else {
      assert a + b == b;
    }
  }

  lemma {:induction false} RemoveFullStopsOfDotFree(s: string)
    requires forall k :: 0 <= k < |s| ==> s[k] != '.'
    ensures RemoveFullStops(s) == s
  {
    if |s| > 0 {
      RemoveFullStopsOfDotFree(s[1..]);
    }
  }

  function SignedMagnitude(s: string, start: nat, sign: int): Result<int, FieldError>
  {
    match ParseInteger(SliceFrom(RemoveFullStops(s), start))
    case Err(e) => Err(e)
    case Ok(magnitude) => Ok(sign * magnitude)
  }

  /**
   * `_parse_monetary_amount`: a "£" or "+£" prefix gives a credit, "-£" a
   * debit; all full stops are deleted and the rest read as an integer.
   */
  function ParseMonetaryAmount(s: string): (r: Result<int, FieldError>)
    ensures |s| > 0 && s[0] != '£' && s[0] != '+' && s[0] != '-' ==> r == Err(NoPoundSign)
    ensures r.Ok? ==> |s| > 0 && (s[0] == '£' || (|s| >= 2 && s[1] == '£'))
    ensures r.Ok? ==> (s[0] == '-' ==> r.value <= 0) && (s[0] != '-' ==> r.value >= 0)
  {
    if |s| == 0 then Err(MissingCharacter)
    else if s[0] == '£' then SignedMagnitude(s, 1, 1)
    else if s[0] == '+' && |s| < 2 then Err(MissingCharacter)
    else if s[0] == '+' && s[1] == '£' then SignedMagnitude(s, 2, 1)
    else if s[0] == '-' && |s| < 2 then Err(MissingCharacter)
    else if s[0] == '-' && s[1] == '£' then SignedMagnitude(s, 2, -1)
    else Err(NoPoundSign)
  }

  /** The sign prefixes `_parse_monetary_amount` accepts. */
  predicate IsMoneyPrefix(prefix: string)
  {
    prefix == "£" || prefix == "+£" || prefix == "-£"
  }

  function PrefixSign(prefix: string): int
  {
    if prefix == "-£" then -1 else 1
  }

  /**
   * After an accepted sign prefix, the amount is the rest of the text with
   * its full stops deleted, read as an integer and signed by the prefix.
   */
  lemma ReadAfterPrefix(prefix: string, body: string)
    requires IsMoneyPrefix(prefix)
    ensures ParseMonetaryAmount(prefix + body)
         == match ParseInteger(RemoveFullStops(body))
            case Err(e) => Err(e)
            case Ok(m) => Ok(PrefixSign(prefix) * m)
  {
    var s := prefix + body;
    RemoveFullStopsOfDotFree(prefix);
    RemoveFullStopsAppend(prefix, body);
    assert SliceFrom(RemoveFullStops(s), |prefix|) == RemoveFullStops(body);
    assert s[0] == prefix[0];
    assert |prefix| == 2 ==> s[1] == prefix[1];
  }

  /** Full stops after the sign prefix make no difference to the amount. */
  lemma FullStopsAreIgnored(prefix: string, body: string)
    requires IsMoneyPrefix(prefix)
    ensures ParseMonetaryAmount(prefix + body) == ParseMonetaryAmount(prefix + RemoveFullStops(body))
  {
    ReadAfterPrefix(prefix, body);
    ReadAfterPrefix(prefix, RemoveFullStops(body));
    RemoveFullStopsOfDotFree(RemoveFullStops(body));
  }

  /** How an amount appears in a statement: sign prefix, pounds, full stop, two-digit pence. */
  function FormatMoney(v: int): string
  {
    (if v < 0 then "-£" else "£") + Decimalise(Abs(v))
  }

  /** Deleting the full stop from `P.pp` leaves the digits of the pence amount. */
  lemma UnsignedDigits(n: nat)
    ensures ParseNatural(RemoveFullStops(Unsigned(n))) == Some(n)
  {
    var whole, pence := Decimal(n / 100), ZeroPad(n % 100, 2);
    TwoDigitPad(n % 100);
    FullStopBetween(whole, pence);
    AppendTwoDigits(whole, pence);
    assert (n / 100) * 100 + n % 100 == n;
  }

  lemma FullStopBetween(a: string, b: string)
    requires AllDigits(a) && AllDigits(b)
    ensures RemoveFullStops(a + "." + b) == a + b
  {
    var dot := ".";
    RemoveFullStopsAppend(a + dot, b);
    RemoveFullStopsAppend(a, dot);
    RemoveFullStopsOfDotFree(a);
    RemoveFullStopsOfDotFree(b);
    assert RemoveFullStops(dot) == [];
  }

  /** Any amount written in statement form is read back exactly. */
  lemma MonetaryAmountRoundTrip(v: int)
    ensures ParseMonetaryAmount(FormatMoney(v)) == Ok(v)
  {
    var prefix := if v < 0 then "-£" else "£";
    assert Decimalise(Abs(v)) == Unsigned(Abs(v));
    ReadAfterPrefix(prefix, Unsigned(Abs(v)));
    UnsignedDigits(Abs(v));
  }

  /**
   * An amount written as a sign prefix, digits, a full stop and digits is
   * read as the digits on both sides run together, signed by the prefix.
   */
  lemma AmountWithFullStop(prefix: string, whole: string, fraction: string)
    requires IsMoneyPrefix(prefix) && AllDigits(whole) && AllDigits(fraction) && |whole| > 0
    ensures AllDigits(whole + fraction)
    ensures ParseMonetaryAmount(prefix + whole + "." + fraction) == Ok(PrefixSign(prefix) * Value(whole + fraction))
  {
    assert prefix + whole + "." + fraction == prefix + (whole + "." + fraction);
    ReadAfterPrefix(prefix, whole + "." + fraction);
    FullStopBetween(whole, fraction);
    ParseDigitsOf(whole + fraction);
  }

  // ---------------------------------------------------------------------
  // dates
  // ---------------------------------------------------------------------

  /** `datetime.date(year, month, day)`, its ValueError reported as InvalidDate. */
  function CalendarDateOf(year: nat, month: nat, day: nat): (r: Result<CalendarDate, FieldError>)
    ensures r.Ok? <==> IsValid(Date(year, month, day))
    ensures r.Ok? ==> r.value == Date(year, month, day)
  {
    match MakeDate(year, month, day)
    case None => Err(InvalidDate)
    case Some(d) => Ok(d)
  }

  /** `_parse_midata_date`: day from characters 0-1, month from 3-4, year from 6 on. */
  function ParseMidataDate(s: string): (r: Result<CalendarDate, FieldError>)
    ensures r.Ok? ==> |s| >= 7
    ensures r.Ok? ==> && ParseNatural(s[..2]) == Some(r.value.day)
                      && ParseNatural(s[3..5]) == Some(r.value.month)
                      && ParseNatural(s[6..]) == Some(r.value.year)
  {
    var day :- ParseInteger(Slice(s, 0, 2));
    var month :- ParseInteger(Slice(s, 3, 5));
    var year :- ParseInteger(SliceFrom(s, 6));
    CalendarDateOf(year, month, day)
  }

  /** The separators at positions 2 and 5 are never looked at. */
  lemma MidataSeparatorsIgnored(s: string, a: char, b: char)
    requires |s| >= 6
    ensures ParseMidataDate(s) == ParseMidataDate(s[..2] + [a] + s[3..5] + [b] + s[6..])
  {
    var t := s[..2] + [a] + s[3..5] + [b] + s[6..];
    assert Slice(t, 0, 2) == Slice(s, 0, 2);
    assert Slice(t, 3, 5) == Slice(s, 3, 5);
    assert SliceFrom(t, 6) == SliceFrom(s, 6);
  }

  /** A date the way a Midata export writes it: dd/mm/yyyy. */
  function FormatMidataDate(d: CalendarDate): string
  {
    ZeroPad(d.day, 2) + "/" + ZeroPad(d.month, 2) + "/" + Decimal(d.year)
  }

  lemma ParseDigitsOf(s: string)
    requires |s| > 0 && AllDigits(s)
    ensures ParseInteger(s) == Ok(Value(s))
  {
  }

  lemma MidataDateRoundTrip(d: CalendarDate)
    ensures ParseMidataDate(FormatMidataDate(d)) == Ok(d)
  {
    var dd, mm, yy := ZeroPad(d.day, 2), ZeroPad(d.month, 2), Decimal(d.year);
    TwoDigitPad(d.day);
    TwoDigitPad(d.month);
    var s := FormatMidataDate(d);
    assert Slice(s, 0, 2) == dd;
    assert Slice(s, 3, 5) == mm;
    assert SliceFrom(s, 6) == yy;
    ParseDigitsOf(dd);
    ParseDigitsOf(mm);
    ParseDigitsOf(yy);
  }

  /** The `month_mappings` table: English three-letter abbreviations. */
  function MonthNumber(abbreviation: string): (r: Result<nat, FieldError>)
    ensures r.Ok? ==> 1 <= r.value <= 12 && MonthAbbreviation(r.value) == abbreviation
  {
    if abbreviation == "Jan" then Ok(1)
    else if abbreviation == "Feb" then Ok(2)
    else if abbreviation == "Mar" then Ok(3)
    else if abbreviation == "Apr" then Ok(4)
    else if abbreviation == "May" then Ok(5)
    else if abbreviation == "Jun" then Ok(6)
    else if abbreviation == "Jul" then Ok(7)
    else if abbreviation == "Aug" then Ok(8)
    else if abbreviation == "Sep" then Ok(9)
    else if abbreviation == "Oct" then Ok(10)
    else if abbreviation == "Nov" then Ok(11)
    else if abbreviation == "Dec" then Ok(12)
    else Err(UnknownMonth)
  }

  function MonthAbbreviation(month: nat): (s: string)
    requires 1 <= month <= 12
    ensures |s| == 3
  {
    match month
    case 1 => "Jan"
    case 2 => "Feb"
    case 3 => "Mar"
    case 4 => "Apr"
    case 5 => "May"
    case 6 => "Jun"
    case 7 => "Jul"
    case 8 => "Aug"
    case 9 => "Sep"
    case 10 => "Oct"
    case 11 => "Nov"
    case _ => "Dec"
  }

  /** Every month's abbreviation is found in the table and maps back to the month. */
  lemma MonthTableRoundTrip(month: nat)
    requires 1 <= month <= 12
    ensures MonthNumber(MonthAbbreviation(month)) == Ok(month)
  {
  }

  /** `_parse_nationwide_date`: day from characters 0-1, year from 7 on, month abbreviation from 3-5. */
  function ParseNationwideDate(s: string): (r: Result<CalendarDate, FieldError>)
    ensures r.Ok? ==> |s| >= 8
    ensures r.Ok? ==> && ParseNatural(s[..2]) == Some(r.value.day)
                      && MonthAbbreviation(r.value.month) == s[3..6]
                      && ParseNatural(s[7..]) == Some(r.value.year)
    ensures (|s| >= 8 && ParseNatural(s[..2]).Some? && ParseNatural(s[7..]).Some? && MonthNumber(s[3..6]).Err?)
            ==> r == Err(UnknownMonth)
  {
    var day :- ParseInteger(Slice(s, 0, 2));
    var year :- ParseInteger(SliceFrom(s, 7));
    var month :- MonthNumber(Slice(s, 3, 6));
    CalendarDateOf(year, month, day)
  }

  /** A date the way a Nationwide statement writes it: dd Mon yyyy. */
  function FormatNationwideDate(d: CalendarDate): string
  {
    ZeroPad(d.day, 2) + " " + MonthAbbreviation(d.month) + " " + Decimal(d.year)
  }

  lemma NationwideDateRoundTrip(d: CalendarDate)
    ensures ParseNationwideDate(FormatNationwideDate(d)) == Ok(d)
  {
    var dd, mon, yy := ZeroPad(d.day, 2), MonthAbbreviation(d.month), Decimal(d.year);
    TwoDigitPad(d.day);
    var s := FormatNationwideDate(d);
    assert Slice(s, 0, 2) == dd;
    assert Slice(s, 3, 6) == mon;
    assert SliceFrom(s, 7) == yy;
    ParseDigitsOf(dd);
    ParseDigitsOf(yy);
    MonthTableRoundTrip(d.month);
  }

  // ---------------------------------------------------------------------
  // rows
  // ---------------------------------------------------------------------

  /** `_midata_parse_transaction`: columns date, type, description, amount, balance. */
  function MidataParseTransaction(row: seq<string>): (r: Result<Transaction, FieldError>)
    requires |row| >= 5
    ensures r.Ok? <==> ParseMidataDate(row[0]).Ok? && ParseMonetaryAmount(row[3]).Ok? && ParseMonetaryAmount(row[4]).Ok?
    ensures r.Ok? ==> && r.value.date == ParseMidataDate(row[0]).value
                      && r.value.kind == row[1] && r.value.description == row[2]
                      && r.value.amount == ParseMonetaryAmount(row[3]).value
                      && r.value.closingBalance == ParseMonetaryAmount(row[4]).value
  {
    var date :- ParseMidataDate(row[0]);
    var amount :- ParseMonetaryAmount(row[3]);
    var balance :- ParseMonetaryAmount(row[4]);
    Ok(Transaction(date, amount, row[1], row[2], balance))
  }

  /**
   * `_nationwide_parse_transaction`: columns date, type, description, paid
   * out, paid in, balance; exactly one of paid out and paid in is filled.
   */
  function NationwideParseTransaction(row: seq<string>): (r: Result<Transaction, FieldError>)
    requires |row| >= 6
    ensures r.Ok? <==> && ParseNationwideDate(row[0]).Ok? && ParseMonetaryAmount(row[5]).Ok?
                       && ((row[3] == "" && ParseMonetaryAmount(row[4]).Ok?)
                           || (row[3] != "" && row[4] == "" && ParseMonetaryAmount(row[3]).Ok?))
    ensures r.Ok? ==> && r.value.date == ParseNationwideDate(row[0]).value
                      && r.value.kind == row[1] && r.value.description == row[2]
                      && r.value.closingBalance == ParseMonetaryAmount(row[5]).value
    ensures r.Ok? && row[3] == "" ==> r.value.amount == ParseMonetaryAmount(row[4]).value
    ensures r.Ok? && row[3] != "" ==> row[4] == "" && r.value.amount == -ParseMonetaryAmount(row[3]).value
    ensures row[3] == "" && row[4] == "" ==> r.Err?
    ensures ParseNationwideDate(row[0]).Ok? && ParseMonetaryAmount(row[5]).Ok? && row[3] != "" && row[4] != ""
            ==> r == Err(PaidOutAndPaidIn)
  {
    var date :- ParseNationwideDate(row[0]);
    var balance :- ParseMonetaryAmount(row[5]);
    var amount :-
      if row[3] == "" then ParseMonetaryAmount(row[4])
      else if row[4] == "" then
        match ParseMonetaryAmount(row[3])
        case Err(e) => Err(e)
        case Ok(paidOut) => Ok(-1 * paidOut)
      else Err(PaidOutAndPaidIn);
    Ok(Transaction(date, amount, row[1], row[2], balance))
  }

  /** `parse_transaction`: the arity check, then the layout's row parser. */
  function ParseTransaction(fmt: StatementReader, row: seq<string>): (r: Result<Transaction, FieldError>)
    ensures |row| != FieldCount(fmt) ==> r == Err(WrongFieldCount(FieldCount(fmt), |row|))
    ensures r.Ok? ==> |row| == if fmt == Midata then 5 else 6
  {
    if |row| != FieldCount(fmt) then Err(WrongFieldCount(FieldCount(fmt), |row|))
    else
      match fmt
      case Midata => MidataParseTransaction(row)
      case Nationwide => NationwideParseTransaction(row)
  }

  /** A transaction written out as a row of the given layout. */
  function Row(fmt: StatementReader, t: Transaction): seq<string>
  {
    match fmt
    case Midata =>
      [FormatMidataDate(t.date), t.kind, t.description, FormatMoney(t.amount), FormatMoney(t.closingBalance)]
    case Nationwide =>
      [FormatNationwideDate(t.date), t.kind, t.description,
       PaidOutColumn(t.amount), PaidInColumn(t.amount), FormatMoney(t.closingBalance)]
  }

  /** A debit's magnitude goes in the paid-out column, the other column stays empty. */
  function PaidOutColumn(amount: int): string
  {
    if amount < 0 then FormatMoney(-amount) else ""
  }

  function PaidInColumn(amount: int): string
  {
    if amount < 0 then "" else FormatMoney(amount)
  }

  /** Every transaction survives being written as a row and parsed back, in either layout. */
  lemma RowRoundTrip(fmt: StatementReader, t: Transaction)
    ensures ParseTransaction(fmt, Row(fmt, t)) == Ok(t)
  {
    match fmt
    case Midata => MidataRowRoundTrip(t);
    case Nationwide => NationwideRowRoundTrip(t);
  }

  lemma MidataRowRoundTrip(t: Transaction)
    ensures MidataParseTransaction(Row(Midata, t)) == Ok(t)
  {
    MonetaryAmountRoundTrip(t.amount);
    MonetaryAmountRoundTrip(t.closingBalance);
    MidataDateRoundTrip(t.date);
  }

  lemma NationwideRowRoundTrip(t: Transaction)
    ensures NationwideParseTransaction(Row(Nationwide, t)) == Ok(t)
  {
    if t.amount < 0 {
      NationwideDebitRoundTrip(t);
    } else {
      NationwideCreditRoundTrip(t);
    }
  }

  lemma NationwideDebitRoundTrip(t: Transaction)
    requires t.amount < 0
    ensures NationwideParseTransaction(Row(Nationwide, t)) == Ok(t)
  {
    NationwideRowShape(t);
    NationwideRowDate(t);
    NationwideRowBalance(t);
    DebitColumns(t);
    NationwideDebitRow(Row(Nationwide, t), t);
  }

  lemma NationwideCreditRoundTrip(t: Transaction)
    requires t.amount >= 0
    ensures NationwideParseTransaction(Row(Nationwide, t)) == Ok(t)
  {
    NationwideRowShape(t);
    NationwideRowDate(t);
    NationwideRowBalance(t);
    CreditColumns(t);
    NationwideCreditRow(Row(Nationwide, t), t);
  }

  lemma NationwideRowShape(t: Transaction)
    ensures var row := Row(Nationwide, t);
      && |row| == 6 && row[1] == t.kind && row[2] == t.description
      && row[3] == PaidOutColumn(t.amount) && row[4] == PaidInColumn(t.amount)
  {
  }

  lemma NationwideRowDate(t: Transaction)
    ensures ParseNationwideDate(Row(Nationwide, t)[0]) == Ok(t.date)
  {
    NationwideDateColumn(Row(Nationwide, t)[0], t.date);
  }

  lemma NationwideRowBalance(t: Transaction)
    ensures ParseMonetaryAmount(Row(Nationwide, t)[5]) == Ok(t.closingBalance)
  {
    MoneyColumn(Row(Nationwide, t)[5], t.closingBalance);
  }

  lemma DebitColumns(t: Transaction)
    requires t.amount < 0
    ensures Row(Nationwide, t)[4] == ""
    ensures ParseMonetaryAmount(Row(Nationwide, t)[3]) == Ok(-t.amount)
  {
    NationwideRowShape(t);
    MoneyColumn(Row(Nationwide, t)[3], -t.amount);
  }

  lemma CreditColumns(t: Transaction)
    requires t.amount >= 0
    ensures Row(Nationwide, t)[3] == ""
    ensures ParseMonetaryAmount(Row(Nationwide, t)[4]) == Ok(t.amount)
  {
    NationwideRowShape(t);
    MoneyColumn(Row(Nationwide, t)[4], t.amount);
  }

  lemma NationwideDateColumn(text: string, d: CalendarDate)
    requires text == FormatNationwideDate(d)
    ensures ParseNationwideDate(text) == Ok(d)
  {
    NationwideDateRoundTrip(d);
  }

  lemma MoneyColumn(text: string, v: int)
    requires text == FormatMoney(v)
    ensures text != [] && ParseMonetaryAmount(text) == Ok(v)
  {
    MonetaryAmountRoundTrip(v);
  }

  lemma NationwideDebitRow(row: seq<string>, t: Transaction)
    requires |row| == 6
    requires ParseNationwideDate(row[0]) == Ok(t.date) && row[1] == t.kind && row[2] == t.description
    requires ParseMonetaryAmount(row[5]) == Ok(t.closingBalance)
    requires row[3] != "" && row[4] == "" && ParseMonetaryAmount(row[3]) == Ok(-t.amount)
    ensures NationwideParseTransaction(row) == Ok(t)
  {
  }

  lemma NationwideCreditRow(row: seq<string>, t: Transaction)
    requires |row| == 6
    requires ParseNationwideDate(row[0]) == Ok(t.date) && row[1] == t.kind && row[2] == t.description
    requires ParseMonetaryAmount(row[5]) == Ok(t.closingBalance)
    requires row[3] == "" && ParseMonetaryAmount(row[4]) == Ok(t.amount)
    ensures NationwideParseTransaction(row) == Ok(t)
  {
  }

  // ---------------------------------------------------------------------
  // direction
  // ---------------------------------------------------------------------

  /** `validate(previous, next)`: `succeeds` read in the layout's direction. */
  predicate Validate(fmt: StatementReader, previous: Transaction, next: Transaction)
  {
    match Ordering(fmt)
    case Chronological => Succeeds(next, previous)
    case ReverseChronological => Succeeds(previous, next)
  }

  /** `date_ordering_is_valid(previous, next)`: the date half of `validate`. */
  predicate DateOrderingIsValid(fmt: StatementReader, previous: Transaction, next: Transaction)
  {
    match Ordering(fmt)
    case Chronological => AtOrBefore(previous.date, next.date)
    case ReverseChronological => AtOrBefore(next.date, previous.date)
  }

  /** The reverse-chronological checks are the chronological ones with the arguments swapped. */
  lemma DirectionsMirror(fmt: StatementReader, other: StatementReader, p: Transaction, n: Transaction)
    requires Ordering(fmt) == Chronological && Ordering(other) == ReverseChronological
    ensures Validate(other, p, n) == Validate(fmt, n, p)
    ensures DateOrderingIsValid(other, p, n) == DateOrderingIsValid(fmt, n, p)
    ensures Validate(fmt, p, n) <==> Succeeds(n, p)
  {
  }

  /** A pair that validates has its dates in the layout's order. */
  lemma ValidationImpliesDateOrdering(fmt: StatementReader, p: Transaction, n: Transaction)
    requires Validate(fmt, p, n)
    ensures DateOrderingIsValid(fmt, p, n)
  {
  }

  function Reverse<T>(s: seq<T>): (r: seq<T>)
    ensures |r| == |s|
    ensures forall i :: 0 <= i < |s| ==> r[i] == s[|s| - 1 - i]
  {
    if |s| == 0 then [] else Reverse(s[1..]) + [s[0]]
  }

  /** `order`: file order turned into chronological order. */
  function Order<T>(fmt: StatementReader, s: seq<T>): (r: seq<T>)
    ensures Ordering(fmt) == Chronological ==> r == s
    ensures |r| == |s|
    ensures Ordering(fmt) == ReverseChronological ==> forall i :: 0 <= i < |s| ==> r[i] == s[|s| - 1 - i]
  {
    match Ordering(fmt)
    case Chronological => s
    case ReverseChronological => Reverse(s)
  }

  /** Every adjacent pair of a list in file order validates. */
  predicate FormatChained(fmt: StatementReader, ts: seq<Transaction>)
  {
    forall i :: 0 < i < |ts| ==> Validate(fmt, ts[i - 1], ts[i])
  }

  /** A list chained in file order becomes a continuous chronological list once ordered. */
  lemma OrderedChainIsContinuous(fmt: StatementReader, ts: seq<Transaction>)
    requires FormatChained(fmt, ts)
    ensures Continuous(Order(fmt, ts))
  {
    var r := Order(fmt, ts);
    forall i | 0 < i < |r|
      ensures Succeeds(r[i], r[i - 1])
    {
      if Ordering(fmt) == ReverseChronological {
        var k := |ts| - i;
        assert Validate(fmt, ts[k - 1], ts[k]);
      }
    }
  }
}
