/** The invoice's date text as `datetime.strptime(s, "%d/%m/%Y")` reads it.
    `%d` takes two digits from 01 to 31, one digit from 1 to 9, or a space
    and one digit from 1 to 9; `%m` takes two digits from 01 to 12 or one
    digit from 1 to 9; `%Y` takes exactly four digits. The fields sit between
    the two `/`, nothing may follow the year, and the three numbers must
    name a real calendar date. */
module DateText {
  import opened Results
  import opened Dates

  predicate IsDigit(c: char) {
    '0' <= c <= '9'
  }

  predicate NonZeroDigit(c: char) {
    '1' <= c <= '9'
  }

  function DigitValue(c: char): int
    requires IsDigit(c)
  {
    c as int - '0' as int
  }

  function DigitChar(k: int): (c: char)
    requires 0 <= k <= 9
    ensures IsDigit(c) && DigitValue(c) == k
  {
    ('0' as int + k) as char
  }

  lemma DigitCharOfValue(c: char)
    requires IsDigit(c)
    ensures DigitChar(DigitValue(c)) == c
  {
  }

  // ---------------------------------------------------------------------------
  // Reading

  /** The number a day (`spaced`) or month field reads, with `max` its
      largest two-digit value; `None` when the field matches no alternative
      of the pattern. */
  function ReadField(t: string, max: int, spaced: bool): Option<int> {
    if |t| == 1 && NonZeroDigit(t[0]) then Some(DigitValue(t[0]))
    else if |t| == 2 && spaced && t[0] == ' ' && NonZeroDigit(t[1]) then Some(DigitValue(t[1]))
    else if |t| == 2 && IsDigit(t[0]) && IsDigit(t[1]) && 1 <= 10 * DigitValue(t[0]) + DigitValue(t[1]) <= max then
      Some(10 * DigitValue(t[0]) + DigitValue(t[1]))
    else None
  }

  /** The number a year field reads: exactly four digits. */
  function ReadYear(t: string): Option<int> {
    if |t| == 4 && IsDigit(t[0]) && IsDigit(t[1]) && IsDigit(t[2]) && IsDigit(t[3]) then
      Some(1000 * DigitValue(t[0]) + 100 * DigitValue(t[1]) + 10 * DigitValue(t[2]) + DigitValue(t[3]))
    else None
  }

  /** The position of the first `/`, or the length when there is none. */
  function SlashAt(s: string): (r: nat)
    ensures r <= |s|
    decreases |s|
  {
    if s == [] || s[0] == '/' then 0 else 1 + SlashAt(s[1..])
  }

  /** Nothing before `SlashAt(s)` is a `/`, and a position inside `s` holds one. */
  lemma {:induction false} SlashAtFirst(s: string)
    ensures SlashAt(s) < |s| ==> s[SlashAt(s)] == '/'
    ensures forall k :: 0 <= k < SlashAt(s) ==> s[k] != '/'
    decreases |s|
  {
    if s != [] && s[0] != '/' {
      SlashAtFirst(s[1..]);
      assert forall k :: 1 <= k < SlashAt(s) ==> s[k] == s[1..][k - 1];
    }
  }

  /** The day, month and year fields: the text before the first `/`, between
      it and the second, and after the second. */
  function SplitFields(s: string): Option<(string, string, string)> {
    var i := SlashAt(s);
    if i == |s| then None
    else
      var rest := s[i + 1..];
      var j := SlashAt(rest);
      if j == |rest| then None
      else Some((s[..i], rest[..j], rest[j + 1..]))
  }

  /** A text cut around a `/` joins back into itself. */
  lemma JoinAtSlash(s: string, i: nat)
    requires i < |s| && s[i] == '/'
    ensures s == s[..i] + "/" + s[i + 1..]
  {
    assert s == s[..i] + [s[i]] + s[i + 1..];
  }

  /** The fields `SplitFields` finds join back into the text. */
  lemma SplitFieldsJoin(s: string)
    requires SplitFields(s).Some?
    ensures var (d, m, y) := SplitFields(s).value; s == d + "/" + m + "/" + y
  {
    var i := SlashAt(s);
    var rest := s[i + 1..];
    var j := SlashAt(rest);
    SlashAtFirst(s);
    SlashAtFirst(rest);
    var (d, m, y) := (s[..i], rest[..j], rest[j + 1..]);
    assert SplitFields(s).value == (d, m, y);
    JoinAtSlash(rest, j);
    JoinAtSlash(s, i);
    assert s == d + "/" + (m + "/" + y);
  }

  /** Reads the invoice date; a text that matches no spelling, or whose
      numbers name no real date (31/02/2024, 00/01/2024, 01/01/0000), raises. */
  function ParseDate(s: string): (r: Result<Date, DateError>)
    ensures r.Ok? ==> Valid(r.value)
    ensures r.Err? ==> r.error == MalformedDate(s)
  {
    match SplitFields(s)
    case None => Err(MalformedDate(s))
    case Some((d, m, y)) =>
      match (ReadField(d, 31, true), ReadField(m, 12, false), ReadYear(y))
      case (Some(day), Some(month), Some(year)) =>
        if Valid(Date(day, month, year)) then Ok(Date(day, month, year)) else Err(MalformedDate(s))
      case _ => Err(MalformedDate(s))
  }

  // ---------------------------------------------------------------------------
  // Spelling

  function TwoDigits(n: int): string
    requires 0 <= n <= 99
  {
    [DigitChar(n / 10), DigitChar(n % 10)]
  }

  function FourDigits(n: int): string
    requires 0 <= n <= 9999
  {
    [DigitChar(n / 1000), DigitChar(n / 100 % 10), DigitChar(n / 10 % 10), DigitChar(n % 10)]
  }

  /** `t` spells the number `n`: two digits with a leading zero, or below 10
      one digit, or (when `spaced`) a space and one digit. */
  predicate Spells(t: string, n: int, spaced: bool) {
    || (0 <= n <= 99 && t == TwoDigits(n))
    || (1 <= n <= 9 && t == [DigitChar(n)])
    || (1 <= n <= 9 && spaced && t == [' ', DigitChar(n)])
  }

  /** `s` is one of the texts that name `dt`. */
  ghost predicate SpellsDate(s: string, dt: Date) {
    && 0 <= dt.year <= 9999
    && exists d: string, m: string :: Spells(d, dt.day, true) && Spells(m, dt.month, false)
         && s == d + "/" + m + "/" + FourDigits(dt.year)
  }

  /** Writes a valid date as `DD/MM/YYYY` with leading zeros. */
  function FormatDate(dt: Date): (s: string)
    requires Valid(dt)
    ensures |s| == 10 && SpellsDate(s, dt)
  {
    var s := TwoDigits(dt.day) + "/" + TwoDigits(dt.month) + "/" + FourDigits(dt.year);
    assert Spells(TwoDigits(dt.day), dt.day, true) && Spells(TwoDigits(dt.month), dt.month, false);
    s
  }

  // ---------------------------------------------------------------------------
  // Reading and spelling agree

  lemma TwoDigitSplit(n: int)
    requires 0 <= n < 100
    ensures 0 <= n / 10 <= 9 && 10 * (n / 10) + n % 10 == n
  {
  }

  lemma FourDigitSplit(n: int)
    requires 0 <= n < 10000
    ensures 0 <= n / 1000 <= 9
    ensures 1000 * (n / 1000) + 100 * (n / 100 % 10) + 10 * (n / 10 % 10) + n % 10 == n
  {
    assert n / 100 == 10 * (n / 1000) + n / 100 % 10;
    assert n / 10 == 10 * (n / 100) + n / 10 % 10;
  }

  lemma TwoDigitJoin(a: int, b: int)
    requires 0 <= a <= 9 && 0 <= b <= 9
    ensures (10 * a + b) / 10 == a && (10 * a + b) % 10 == b
  {
  }

  lemma FourDigitJoin(a: int, b: int, c: int, d: int)
    requires 0 <= a <= 9 && 0 <= b <= 9 && 0 <= c <= 9 && 0 <= d <= 9
    ensures var n := 1000 * a + 100 * b + 10 * c + d;
      n / 1000 == a && n / 100 % 10 == b && n / 10 % 10 == c && n % 10 == d
  {
    var n := 1000 * a + 100 * b + 10 * c + d;
    assert n == 10 * (100 * a + 10 * b + c) + d;
    assert n / 10 == 100 * a + 10 * b + c;
    assert n / 10 == 10 * (10 * a + b) + c;
    assert n / 100 == 10 * a + b;
  }

  /** A field reads as `n` exactly when it is one of the spellings of `n`
      from 1 to `max`. */
  lemma ReadFieldSpells(t: string, max: int, spaced: bool, n: int)
    requires 9 <= max <= 99
    ensures ReadField(t, max, spaced) == Some(n) <==> 1 <= n <= max && Spells(t, n, spaced)
  {
    if ReadField(t, max, spaced) == Some(n) {
      if |t| == 1 {
        DigitCharOfValue(t[0]);
        assert t == [DigitChar(n)];
      } else if spaced && t[0] == ' ' {
        DigitCharOfValue(t[1]);
        assert t == [' ', DigitChar(n)];
      } else {
        TwoDigitJoin(DigitValue(t[0]), DigitValue(t[1]));
        DigitCharOfValue(t[0]);
        DigitCharOfValue(t[1]);
        assert t == TwoDigits(n);
      }
    }
    if 1 <= n <= max && Spells(t, n, spaced) {
      if 0 <= n <= 99 && t == TwoDigits(n) {
        TwoDigitSplit(n);
      }
    }
  }

  /** A year field reads as `n` exactly when it is the four digits of `n`. */
  lemma ReadYearSpells(t: string, n: int)
    ensures ReadYear(t) == Some(n) <==> 0 <= n <= 9999 && t == FourDigits(n)
  {
    if ReadYear(t) == Some(n) {
      FourDigitJoin(DigitValue(t[0]), DigitValue(t[1]), DigitValue(t[2]), DigitValue(t[3]));
      DigitCharOfValue(t[0]);
      DigitCharOfValue(t[1]);
      DigitCharOfValue(t[2]);
      DigitCharOfValue(t[3]);
      assert t == FourDigits(n);
    }
    if 0 <= n <= 9999 && t == FourDigits(n) {
      FourDigitSplit(n);
    }
  }

  /** The first `/` of `d + "/" + rest`, for a field `d` without one, ends `d`. */
  lemma SlashAfterField(d: string, rest: string)
    requires forall k :: 0 <= k < |d| ==> d[k] != '/'
    ensures SlashAt(d + "/" + rest) == |d|
    decreases |d|
  {
    if d != [] {
      assert (d + "/" + rest)[1..] == d[1..] + "/" + rest;
      SlashAfterField(d[1..], rest);
    }
  }

  /** Fields without a `/` joined by two slashes split back into themselves. */
  lemma SplitJoined(d: string, m: string, y: string)
    requires forall k :: 0 <= k < |d| ==> d[k] != '/'
    requires forall k :: 0 <= k < |m| ==> m[k] != '/'
    ensures SplitFields(d + "/" + m + "/" + y) == Some((d, m, y))
  {
    var s := d + "/" + m + "/" + y;
    var rest := m + "/" + y;
    assert s == d + "/" + rest;
    SlashAfterField(d, rest);
    assert s[..|d|] == d && s[|d| + 1..] == rest;
    SlashAfterField(m, y);
    assert rest[..|m|] == m && rest[|m| + 1..] == y;
    assert SplitFields(s) == Some((s[..|d|], rest[..|m|], rest[|m| + 1..]));
  }

  lemma SpellingHasNoSlash(t: string, n: int, spaced: bool)
    requires Spells(t, n, spaced)
    ensures forall k :: 0 <= k < |t| ==> t[k] != '/'
  {
  }

  /** Fields that read as a valid date make a text that reads as it. */
  lemma ParseOfFields(s: string, dt: Date, d: string, m: string, y: string)
    requires Valid(dt) && SplitFields(s) == Some((d, m, y))
    requires ReadField(d, 31, true) == Some(dt.day) && ReadField(m, 12, false) == Some(dt.month)
    requires ReadYear(y) == Some(dt.year)
    ensures ParseDate(s) == Ok(dt)
  {
  }

  /** A spelling of a valid date reads as that date. */
  lemma ParseOfSpelling(s: string, dt: Date, d: string, m: string)
    requires Valid(dt) && Spells(d, dt.day, true) && Spells(m, dt.month, false)
    requires s == d + "/" + m + "/" + FourDigits(dt.year)
    ensures ParseDate(s) == Ok(dt)
  {
    var y := FourDigits(dt.year);
    SpellingHasNoSlash(d, dt.day, true);
    SpellingHasNoSlash(m, dt.month, false);
    SplitJoined(d, m, y);
    ReadFieldSpells(d, 31, true, dt.day);
    ReadFieldSpells(m, 12, false, dt.month);
    ReadYearSpells(y, dt.year);
    ParseOfFields(s, dt, d, m, y);
  }

  /** A text that reads is a spelling of the date it reads as. */
  lemma SpellingOfParse(s: string)
    requires ParseDate(s).Ok?
    ensures SpellsDate(s, ParseDate(s).value)
  {
    var dt := ParseDate(s).value;
    var (d, m, y) := SplitFields(s).value;
    SplitFieldsJoin(s);
    assert ReadField(d, 31, true) == Some(dt.day) && ReadField(m, 12, false) == Some(dt.month);
    assert ReadYear(y) == Some(dt.year);
    ReadFieldSpells(d, 31, true, dt.day);
    ReadFieldSpells(m, 12, false, dt.month);
    ReadYearSpells(y, dt.year);
  }

  /** The texts that read as `dt` are exactly its spellings: the day as two
      digits, or below 10 as one digit or a space and one digit; the month as
      two digits, or below 10 as one digit; the year as four digits. */
  lemma ParseSpellings(s: string, dt: Date)
    ensures ParseDate(s) == Ok(dt) <==> Valid(dt) && SpellsDate(s, dt)
  {
    if ParseDate(s) == Ok(dt) {
      SpellingOfParse(s);
    }
    if Valid(dt) && SpellsDate(s, dt) {
      var d: string, m: string :| Spells(d, dt.day, true) && Spells(m, dt.month, false)
        && s == d + "/" + m + "/" + FourDigits(dt.year);
      ParseOfSpelling(s, dt, d, m);
    }
  }

  /** Every valid date is read back from its own `DD/MM/YYYY` text. */
  lemma ParseFormat(dt: Date)
    requires Valid(dt)
    ensures ParseDate(FormatDate(dt)) == Ok(dt)
  {
    ParseOfSpelling(FormatDate(dt), dt, TwoDigits(dt.day), TwoDigits(dt.month));
  }

  /** A text spelled out as day, month and year fields that read as a valid date. */
  lemma ParseSpelledOut(s: string, d: string, m: string, y: string, dt: Date)
    requires s == d + "/" + m + "/" + y
    requires forall k :: 0 <= k < |d| ==> d[k] != '/'
    requires forall k :: 0 <= k < |m| ==> m[k] != '/'
    requires ReadField(d, 31, true) == Some(dt.day) && ReadField(m, 12, false) == Some(dt.month)
    requires ReadYear(y) == Some(dt.year) && Valid(dt)
    ensures ParseDate(s) == Ok(dt)
  {
    SplitJoined(d, m, y);
    ParseOfFields(s, dt, d, m, y);
  }

  lemma ReadsCanonical()
    ensures ParseDate("01/01/2024") == Ok(Date(1, 1, 2024))
  {
    assert "01/01/2024" == "01" + "/" + "01" + "/" + "2024";
    assert ReadYear("2024") == Some(2024);
    ParseSpelledOut("01/01/2024", "01", "01", "2024", Date(1, 1, 2024));
  }

  lemma ReadsOneDigitFields()
    ensures ParseDate("1/1/2024") == Ok(Date(1, 1, 2024))
  {
    assert "1/1/2024" == "1" + "/" + "1" + "/" + "2024";
    assert ReadYear("2024") == Some(2024);
    ParseSpelledOut("1/1/2024", "1", "1", "2024", Date(1, 1, 2024));
  }

  lemma ReadsSpacedDay()
    ensures ParseDate(" 7/3/2024") == Ok(Date(7, 3, 2024))
  {
    assert " 7/3/2024" == " 7" + "/" + "3" + "/" + "2024";
    assert ReadYear("2024") == Some(2024);
    ParseSpelledOut(" 7/3/2024", " 7", "3", "2024", Date(7, 3, 2024));
  }

  lemma RejectsMissingDay()
    ensures ParseDate("29/02/2023").Err?
  {
    assert "29/02/2023" == "29" + "/" + "02" + "/" + "2023";
    SplitJoined("29", "02", "2023");
    assert ReadField("29", 31, true) == Some(29) && ReadField("02", 12, false) == Some(2);
    assert ReadYear("2023") == Some(2023);
    assert !Valid(Date(29, 2, 2023));
  }

  lemma RejectsSpacedMonth()
    ensures ParseDate("01/ 1/2024").Err?
  {
    assert "01/ 1/2024" == "01" + "/" + " 1" + "/" + "2024";
    SplitJoined("01", " 1", "2024");
    assert ReadField(" 1", 12, false).None?;
  }

  lemma RejectsShortYear()
    ensures ParseDate("01/01/24").Err?
  {
    assert "01/01/24" == "01" + "/" + "01" + "/" + "24";
    SplitJoined("01", "01", "24");
  }

  lemma RejectsTrailingDigits()
    ensures ParseDate("01/01/20245").Err?
  {
    assert "01/01/20245" == "01" + "/" + "01" + "/" + "20245";
    SplitJoined("01", "01", "20245");
  }

  /** Worked examples: the canonical text, one-digit fields and a space-padded
      day read; a day that is not in the month does not. */
  lemma ParseExample()
    ensures ParseDate("01/01/2024") == Ok(Date(1, 1, 2024))
    ensures ParseDate("1/1/2024") == Ok(Date(1, 1, 2024))
    ensures ParseDate(" 7/3/2024") == Ok(Date(7, 3, 2024))
    ensures ParseDate("29/02/2023").Err?
  {
    ReadsCanonical();
    ReadsOneDigitFields();
    ReadsSpacedDay();
    RejectsMissingDay();
  }

  /** Worked examples of texts that do not read: a space-padded month, a
      two-digit year, and digits left over after the year. */
  lemma ParseRejects()
    ensures ParseDate("01/ 1/2024").Err?
    ensures ParseDate("01/01/24").Err?
    ensures ParseDate("01/01/20245").Err?
  {
    RejectsSpacedMonth();
    RejectsShortYear();
    RejectsTrailingDigits();
  }
}
