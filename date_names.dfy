/**
 * Which remote names the locator reads as dated folders: the full-match pattern
 * `^(\d{4})-(\d{2})-(\d{2})$` followed by `strptime(..., "%Y-%m-%d")` on the three groups.
 * Digits are ASCII digits.
 */
module DateNames {
  import opened Wrappers
  import opened Dates

  predicate IsDigit(c: char)
  {
    '0' <= c <= '9'
  }

  predicate AllDigits(s: string)
  {
    forall i :: 0 <= i < |s| ==> IsDigit(s[i])
  }

  function DigitValue(c: char): (v: nat)
    requires IsDigit(c)
    ensures v < 10
  {
    c as int - '0' as int
  }

  function DigitChar(v: nat): (c: char)
    requires v < 10
    ensures IsDigit(c) && DigitValue(c) == v
  {
    ('0' as int + v) as char
  }

  /** The decimal number a run of digits spells, most significant digit first. */
  function DecimalValue(s: string): (n: nat)
    requires AllDigits(s)
  {
    if s == [] then 0 else DecimalValue(s[..|s| - 1]) * 10 + DigitValue(s[|s| - 1])
  }

  function Pow10(n: nat): (p: nat)
    ensures p >= 1
  {
    if n == 0 then 1 else 10 * Pow10(n - 1)
  }

  /** `n` written in decimal with exactly `width` digits: zero-padded, and truncated to the last `width` digits. */
  function Digits(n: nat, width: nat): (s: string)
    ensures |s| == width && AllDigits(s)
  {
    if width == 0 then [] else Digits(n / 10, width - 1) + [DigitChar(n % 10)]
  }

  /** Writing a number that fits in `width` digits and reading it back gives the number. */
  lemma {:induction false} DigitsRoundTrip(n: nat, width: nat)
    requires n < Pow10(width)
    ensures DecimalValue(Digits(n, width)) == n
  {
    if width > 0 {
      var s := Digits(n, width);
      assert s[..|s| - 1] == Digits(n / 10, width - 1);
      DigitsRoundTrip(n / 10, width - 1);
    }
  }

  /** Reading a run of digits and writing the number back at the same width gives the run. */
  lemma {:induction false} DecimalValueRoundTrip(s: string)
    requires AllDigits(s)
    ensures Digits(DecimalValue(s), |s|) == s
  {
    if s != [] {
      var p := s[..|s| - 1];
      var d := DigitValue(s[|s| - 1]);
      DecimalValueRoundTrip(p);
      assert (DecimalValue(p) * 10 + d) / 10 == DecimalValue(p);
      assert (DecimalValue(p) * 10 + d) % 10 == d;
      assert s == p + [s[|s| - 1]];
    }
  }

  /** The text `(\d{4})-(\d{2})-(\d{2})` matches exactly, with nothing around it. */
  predicate HasDateShape(s: string)
  {
    && |s| == 10
    && AllDigits(s[..4]) && s[4] == '-'
    && AllDigits(s[5..7]) && s[7] == '-'
    && AllDigits(s[8..])
  }

  /**
   * The full pattern match. Python's `$` also matches just before a final newline,
   * so one trailing "\n" after the date is accepted.
   */
  predicate MatchesDatePattern(s: string)
  {
    || HasDateShape(s)
    || (|s| == 11 && HasDateShape(s[..10]) && s[10] == '\n')
  }

  /** `strptime(text, "%Y-%m-%d")` on a text of the pattern's shape: the date, or None for the ValueError. */
  function ParseIsoDate(text: string): (r: Option<Date>)
    requires HasDateShape(text)
    ensures r.Some? <==> IsValid(Date(DecimalValue(text[..4]), DecimalValue(text[5..7]), DecimalValue(text[8..])))
    ensures r.Some? ==> IsValid(r.value)
  {
    var d := Date(DecimalValue(text[..4]), DecimalValue(text[5..7]), DecimalValue(text[8..]));
    if IsValid(d) then Some(d) else None
  }

  /** The date `ParseIsoDate` gives is the one the text spells: written back, it is the text. */
  lemma ParseIsoDateGivesSpelledDate(text: string)
    requires HasDateShape(text)
    ensures ParseIsoDate(text).Some? ==> FormatDate(ParseIsoDate(text).value) == text
  {
    DecimalValueRoundTrip(text[..4]);
    DecimalValueRoundTrip(text[5..7]);
    DecimalValueRoundTrip(text[8..]);
    assert text == text[..4] + "-" + text[5..7] + "-" + text[8..];
  }

  /** A name that matches the pattern is a date shape, possibly followed by one newline. */
  lemma MatchedNameShape(s: string)
    requires MatchesDatePattern(s)
    ensures HasDateShape(s[..10]) && (|s| == 10 || s[10..] == "\n")
  {
    if |s| == 10 {
      assert s[..10] == s;
    } else {
      assert s[10..] == [s[10]];
    }
  }

  /**
   * The date the locator assigns to a listing entry, or None when the entry is skipped:
   * either the pattern does not match or the matched groups are not a real date.
   */
  function FolderDate(item: string): (r: Option<Date>)
    ensures r.Some? ==> MatchesDatePattern(item) && IsValid(r.value)
  {
    if MatchesDatePattern(item) then
      assert |item| == 10 ==> item[..10] == item;
      ParseIsoDate(item[..10])
    else None
  }

  /** The canonical folder name of a date, `YYYY-MM-DD`. */
  function FormatDate(d: Date): (s: string)
    requires IsValid(d)
    ensures HasDateShape(s)
  {
    var s := Digits(d.year, 4) + "-" + Digits(d.month, 2) + "-" + Digits(d.day, 2);
    assert s[..4] == Digits(d.year, 4);
    assert s[5..7] == Digits(d.month, 2);
    assert s[8..] == Digits(d.day, 2);
    s
  }

  /** Every real date, written as a folder name, is read back as that date. */
  lemma FormatThenParse(d: Date)
    requires IsValid(d)
    ensures FolderDate(FormatDate(d)) == Some(d)
  {
    var s := FormatDate(d);
    assert s[..10] == s;
    assert s[..4] == Digits(d.year, 4);
    assert s[5..7] == Digits(d.month, 2);
    assert s[8..] == Digits(d.day, 2);
    DigitsRoundTrip(d.year, 4);
    DigitsRoundTrip(d.month, 2);
    DigitsRoundTrip(d.day, 2);
  }

  /**
   * Every name the locator accepts is the canonical name of its date, possibly
   * followed by the one newline that `$` lets through.
   */
  lemma ParseThenFormat(item: string)
    requires FolderDate(item).Some?
    ensures item == FormatDate(FolderDate(item).value) || item == FormatDate(FolderDate(item).value) + "\n"
    ensures !HasDateShape(item) ==> item == FormatDate(FolderDate(item).value) + "\n"
  {
    MatchedNameShape(item);
    var text := item[..10];
    assert |item| == 10 ==> text == item;
    assert FolderDate(item) == ParseIsoDate(text);
    ParseIsoDateGivesSpelledDate(text);
    var d := FolderDate(item).value;
    assert text == FormatDate(d);
    if |item| == 11 {
      assert item == text + item[10..];
    }
  }

  /** The name of a real date followed by one newline is read back as that date too. */
  lemma FormatWithNewlineThenParse(d: Date)
    requires IsValid(d)
    ensures FolderDate(FormatDate(d) + "\n") == Some(d)
  {
    var s := FormatDate(d);
    var n := s + "\n";
    assert n[..10] == s && s[..10] == s;
    assert MatchesDatePattern(n);
    assert FolderDate(n) == ParseIsoDate(s) == FolderDate(s);
    FormatThenParse(d);
  }

  /** Two- and four-digit runs spell the numbers they should. */
  lemma TwoDigitValue(s: string)
    requires |s| == 2 && AllDigits(s)
    ensures DecimalValue(s) == DigitValue(s[0]) * 10 + DigitValue(s[1])
  {
    assert s[..1][..0] == [];
    assert DecimalValue(s[..1]) == DigitValue(s[0]);
  }

  lemma FourDigitValue(s: string)
    requires |s| == 4 && AllDigits(s)
    ensures DecimalValue(s) == DigitValue(s[0]) * 1000 + DigitValue(s[1]) * 100 + DigitValue(s[2]) * 10 + DigitValue(s[3])
  {
    var p3 := s[..3];
    var p2 := p3[..2];
    assert p2 == s[..2];
    TwoDigitValue(p2);
    assert DecimalValue(p3) == DecimalValue(p2) * 10 + DigitValue(s[2]);
  }

  /** `FolderDate` of a name with the plain date shape, field by field. */
  lemma FolderDateOfShape(item: string)
    requires HasDateShape(item)
    ensures FolderDate(item) ==
      var d := Date(DigitValue(item[0]) * 1000 + DigitValue(item[1]) * 100 + DigitValue(item[2]) * 10 + DigitValue(item[3]),
                    DigitValue(item[5]) * 10 + DigitValue(item[6]),
                    DigitValue(item[8]) * 10 + DigitValue(item[9]));
      if IsValid(d) then Some(d) else None
  {
    assert item[..10] == item;
    FourDigitValue(item[..4]);
    TwoDigitValue(item[5..7]);
    TwoDigitValue(item[8..]);
  }

  /** Names that match the digit pattern with a month or day that does not exist are skipped, not rejected. */
  lemma NonexistentDaysSkipped()
    ensures MatchesDatePattern("2024-13-01") && FolderDate("2024-13-01") == None
    ensures MatchesDatePattern("2024-02-30") && FolderDate("2024-02-30") == None
  {
    FolderDateOfShape("2024-13-01");
    FolderDateOfShape("2024-02-30");
  }

  /** Year 0 is outside `datetime`'s range, and 2023 has no 29 February: both names are skipped. */
  lemma YearDependentSkips()
    ensures FolderDate("0000-01-01") == None
    ensures FolderDate("2023-02-29") == None
  {
    FolderDateOfShape("0000-01-01");
    FolderDateOfShape("2023-02-29");
  }

  /** 29 February of a leap year is kept, and so is a date followed by the newline `$` admits. */
  lemma LeapDayKept()
    ensures FolderDate("2024-02-29") == Some(Date(2024, 2, 29))
  {
    FolderDateOfShape("2024-02-29");
  }

  lemma TrailingNewlineKept()
    ensures FolderDate("2024-01-02\n") == Some(Date(2024, 1, 2))
  {
    var n := "2024-01-02\n";
    var t := "2024-01-02";
    assert n[..10] == t && t[..10] == t;
    FolderDateOfShape(t);
    assert MatchesDatePattern(n);
    assert FolderDate(n) == ParseIsoDate(t) == FolderDate(t);
  }
}
