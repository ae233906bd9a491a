/** Reading the two MRZ lines of a passport, and the TD3 layout (section 4.2 of ICAO Doc 9303 Part 4) it inverts. */
module Passport {
  import opened Wrappers
  import opened Mrz

  datatype Date = Date(year: int, month: int, day: int)

  predicate IsLeap(y: int) {
    y % 4 == 0 && (y % 100 != 0 || y % 400 == 0)
  }

  function DaysInMonth(y: int, m: int): int {
    if m == 2 then (if IsLeap(y) then 29 else 28)
    else if m == 4 || m == 6 || m == 9 || m == 11 then 30
    else 31
  }

  /** What `datetime(year, month, day)` accepts. */
  predicate ValidDate(d: Date) {
    1 <= d.year <= 9999 && 1 <= d.month <= 12 && 1 <= d.day <= DaysInMonth(d.year, d.month)
  }

  /** The Gregorian calendar of the years 1 to 9999. */
  lemma CalendarIsGregorian(y: int, m: int, day: int)
    requires 1 <= y <= 9999
    ensures ValidDate(Date(y, m, day)) ==> 1 <= m <= 12 && 1 <= day <= 31
    ensures 1 <= m <= 12 && 1 <= day <= 28 ==> ValidDate(Date(y, m, day))
    ensures ValidDate(Date(y, 2, 29)) <==> (y % 4 == 0 && y % 100 != 0) || y % 400 == 0
    ensures 1 <= m <= 12 && m != 2 ==> ValidDate(Date(y, m, 29)) && ValidDate(Date(y, m, 30))
    ensures !ValidDate(Date(y, 2, 30))
    ensures ValidDate(Date(y, m, 31)) <==> m == 1 || m == 3 || m == 5 || m == 7 || m == 8 || m == 10 || m == 12
  {
  }

  predicate IsDigit(c: char) {
    '0' <= c <= '9'
  }

  /** `int(s)` on two characters; anything but digits raises. */
  function TwoDigits(s: string): Option<int>
    requires |s| == 2
  {
    if IsDigit(s[0]) && IsDigit(s[1])
    then Some(10 * (s[0] as int - '0' as int) + (s[1] as int - '0' as int))
    else None
  }

  /** None when the date raises; years up to 30 belong to this century. */
  function ParseMrzDate(s: string): Option<Date>
    requires |s| == 6
  {
    var year, month, day := TwoDigits(s[..2]), TwoDigits(s[2..4]), TwoDigits(s[4..6]);
    if year.None? || month.None? || day.None? then None
    else
      var d := Date(if year.value > 30 then year.value + 1900 else year.value + 2000, month.value, day.value);
      if ValidDate(d) then Some(d) else None
  }

  // ---- Names ----------------------------------------------------------------------------------

  function Replaced(s: string, a: char, b: char): (r: string)
    ensures |r| == |s|
    ensures forall i :: 0 <= i < |s| ==> r[i] == if s[i] == a then b else s[i]
  {
    seq(|s|, i requires 0 <= i < |s| => if s[i] == a then b else s[i])
  }

  /** The first place where two spaces stand together; the length, if there is none. */
  function FirstDouble(s: string): (i: nat)
    ensures i <= |s|
    ensures i < |s| ==> i + 1 < |s| && s[i] == ' ' && s[i + 1] == ' '
    ensures forall j :: 0 <= j < i && j + 1 < |s| ==> !(s[j] == ' ' && s[j + 1] == ' ')
  {
    if |s| < 2 then |s|
    else if s[0] == ' ' && s[1] == ' ' then 0
    else FirstDouble(s[1..]) + 1
  }

  /** `s.split("  ")`. */
  function Split(s: string): (parts: seq<string>)
    ensures parts != []
    decreases |s|
  {
    var i := FirstDouble(s);
    if i < |s| then [s[..i]] + Split(s[i + 2..]) else [s]
  }

  function Strip(s: string): string {
    if s != "" && s[0] == ' ' then Strip(s[1..])
    else if s != "" && s[|s| - 1] == ' ' then Strip(s[..|s| - 1])
    else s
  }

  predicate NoSpaceAtTheEnds(s: string) {
    s != "" ==> s[0] != ' ' && s[|s| - 1] != ' '
  }

  predicate Trims(s: string, a: nat, r: string, b: nat) {
    s == Spaces(a) + r + Spaces(b)
  }

  lemma OneMoreInFront(s: string, a: nat, r: string, b: nat)
    requires s != "" && s[0] == ' ' && Trims(s[1..], a, r, b)
    ensures Trims(s, a + 1, r, b)
  {
    assert s == [s[0]] + s[1..];
    assert Spaces(a + 1) == [' '] + Spaces(a);
  }

  lemma OneMoreBehind(s: string, a: nat, r: string, b: nat)
    requires s != "" && s[|s| - 1] == ' ' && Trims(s[..|s| - 1], a, r, b)
    ensures Trims(s, a, r, b + 1)
  {
    assert s == s[..|s| - 1] + [s[|s| - 1]];
    assert Spaces(b + 1) == Spaces(b) + [' '];
  }

  /** Stripping takes the spaces off both ends and nothing else. */
  lemma {:induction false} StripTrims(s: string) returns (a: nat, b: nat)
    ensures Trims(s, a, Strip(s), b) && NoSpaceAtTheEnds(Strip(s))
    decreases |s|
  {
    if s != "" && s[0] == ' ' {
      a, b := StripTrims(s[1..]);
      OneMoreInFront(s, a, Strip(s), b);
      a := a + 1;
    } else if s != "" && s[|s| - 1] == ' ' {
      a, b := StripTrims(s[..|s| - 1]);
      OneMoreBehind(s, a, Strip(s), b);
      b := b + 1;
    } else {
      a, b := 0, 0;
      assert Spaces(0) + s + Spaces(0) == s;
    }
  }

  function Joined(parts: seq<string>): string {
    if parts == [] then "" else if |parts| == 1 then parts[0] else parts[0] + "  " + Joined(parts[1..])
  }

  lemma JoinedFirst(a: string, rest: seq<string>)
    requires rest != []
    ensures Joined([a] + rest) == a + "  " + Joined(rest)
  {
    assert ([a] + rest)[1..] == rest;
  }

  predicate NoDoubleSpace(s: string) {
    forall j :: 0 <= j && j + 1 < |s| ==> !(s[j] == ' ' && s[j + 1] == ' ')
  }

  /** A part that a cut ends. */
  predicate IsCut(part: string) {
    NoDoubleSpace(part) && (part != "" ==> part[|part| - 1] != ' ')
  }

  lemma FirstIsCut(s: string)
    requires FirstDouble(s) < |s|
    ensures IsCut(s[..FirstDouble(s)])
  {
    var k := FirstDouble(s);
    assert k > 0 ==> s[k - 1] != ' ';
    forall j | 0 <= j && j + 1 < k ensures !(s[..k][j] == ' ' && s[..k][j + 1] == ' ') {
      assert s[..k][j] == s[j] && s[..k][j + 1] == s[j + 1];
    }
  }

  /** Splitting loses nothing. */
  lemma {:induction false} SplitJoins(s: string)
    ensures Joined(Split(s)) == s
    decreases |s|
  {
    var k := FirstDouble(s);
    if k < |s| {
      SplitJoins(s[k + 2..]);
      JoinedFirst(s[..k], Split(s[k + 2..]));
      assert s == s[..k] + [s[k], s[k + 1]] + s[k + 2..];
    }
  }

  predicate CutsAtDoubleSpaces(parts: seq<string>) {
    forall i :: 0 <= i < |parts| ==> NoDoubleSpace(parts[i]) && (i + 1 < |parts| ==> IsCut(parts[i]))
  }

  lemma OneMoreCut(part: string, rest: seq<string>)
    requires IsCut(part) && CutsAtDoubleSpaces(rest)
    ensures CutsAtDoubleSpaces([part] + rest)
  {
  }

  /** It cuts at double spaces, the leftmost first: every part but the last is one that a cut ends. */
  lemma {:induction false} SplitCutsAtDoubleSpaces(s: string)
    ensures CutsAtDoubleSpaces(Split(s))
    decreases |s|
  {
    var k := FirstDouble(s);
    if k < |s| {
      FirstIsCut(s);
      SplitCutsAtDoubleSpaces(s[k + 2..]);
      OneMoreCut(s[..k], Split(s[k + 2..]));
    } else {
      assert NoDoubleSpace(s);
    }
  }

  datatype Name = Name(surname: string, given: string)

  function ParseParts(parts: seq<string>): Name
    requires parts != []
  {
    Name(Strip(parts[0]), if |parts| > 1 then Strip(parts[1]) else "")
  }

  function ParseName(field: string): Name {
    ParseParts(Split(Replaced(field, '<', ' ')))
  }

  // ---- The parser -----------------------------------------------------------------------------

  datatype PassportData = PassportData(
    documentType: char, country: string, name: Name, number: string, nationality: string,
    birth: Date, gender: char, expiry: Date)

  datatype Parsed = NoMrz | BadDate | Read(data: PassportData)

  /** `[A-Z0-9<]{44,46}`. */
  predicate IsCandidate(line: string) {
    44 <= |line| <= 46 && MrzText(line)
  }

  function Candidates(lines: seq<string>): (r: seq<string>)
    ensures forall i :: 0 <= i < |r| ==> |r[i]| == WIDTH
  {
    if lines == [] then []
    else
      var line := Without(' ', lines[|lines| - 1]);
      Candidates(lines[..|lines| - 1]) + (if IsCandidate(line) then [Normalized(line)] else [])
  }

  function ParseLines(l1: string, l2: string): Parsed
    requires |l1| == WIDTH && |l2| == WIDTH
  {
    var birth, expiry := ParseMrzDate(l2[13..19]), ParseMrzDate(l2[21..27]);
    if birth.None? || expiry.None? then BadDate
    else
      Read(PassportData(l1[0], l1[2..5], ParseName(l1[5..]), l2[..9], l2[10..13],
                        birth.value, l2[20], expiry.value))
  }

  function ParseOf(lines: seq<string>): Parsed {
    var found := Candidates(lines);
    if |found| < 2 then NoMrz else ParseLines(found[|found| - 2], found[|found| - 1])
  }

  method ParseMrz(lines: seq<string>) returns (result: Parsed)
    ensures result == ParseOf(lines)
  {
    var mrzLines: seq<string> := [];
    for i := 0 to |lines|
      invariant mrzLines == Candidates(lines[..i])
    {
      assert lines[..i + 1][..i] == lines[..i];
      var line := Without(' ', lines[i]);
      if IsCandidate(line) {
        var fixed := NormalizeMrzLine(line);
        mrzLines := mrzLines + [fixed];
      }
    }
    assert lines[..|lines|] == lines;
    if |mrzLines| < 2 {
      return NoMrz;
    }
    return ParseLines(mrzLines[|mrzLines| - 2], mrzLines[|mrzLines| - 1]);
  }

  /** The lines taken are those of 44 to 46 digits, capitals and fillers once the spaces are gone. */
  lemma CandidatesAreThese(before: seq<string>, line: string)
    ensures var text := Without(' ', line);
            Candidates(before + [line])
            == if 44 <= |text| <= 46 && (forall i :: 0 <= i < |text| ==>
                    '0' <= text[i] <= '9' || 'A' <= text[i] <= 'Z' || text[i] == '<')
               then Candidates(before) + [Normalized(text)]
               else Candidates(before)
  {
    assert (before + [line])[..|before|] == before;
  }

  /** The parse fails for want of two such lines or of two readable dates, and for nothing else. */
  lemma ParseFailsIff(lines: seq<string>)
    ensures ParseOf(lines) == NoMrz <==> |Candidates(lines)| < 2
    ensures ParseOf(lines) == BadDate
            <==> |Candidates(lines)| >= 2
                 && var l2 := Candidates(lines)[|Candidates(lines)| - 1];
                    ParseMrzDate(l2[13..19]) == None || ParseMrzDate(l2[21..27]) == None
  {
  }

  /** Six digits are read as year, month and day, the year from 1931 to 2030, if there is such a day. */
  lemma DatesAreRead(s: string)
    requires |s| == 6
    ensures if forall i :: 0 <= i < 6 ==> '0' <= s[i] <= '9' then
              var yy, mm, dd := 10 * (s[0] as int - 48) + (s[1] as int - 48),
                                10 * (s[2] as int - 48) + (s[3] as int - 48),
                                10 * (s[4] as int - 48) + (s[5] as int - 48);
              var d := Date(if yy <= 30 then 2000 + yy else 1900 + yy, mm, dd);
              ParseMrzDate(s) == if ValidDate(d) then Some(d) else None
            else ParseMrzDate(s) == None
  {
    assert s[..2] == [s[0], s[1]] && s[2..4] == [s[2], s[3]] && s[4..6] == [s[4], s[5]];
  }

  // ---- The TD3 layout -------------------------------------------------------------------------

  /** What a passport prints, beside the check digits; `kind` is the second character of the document code. */
  datatype Document = Document(kind: char, optionalData: string, data: PassportData)

  /** Letters in words separated by single spaces. */
  predicate WellFormedName(s: string) {
    && (forall i :: 0 <= i < |s| ==> 'A' <= s[i] <= 'Z' || s[i] == ' ')
    && (s != "" ==> s[0] != ' ' && s[|s| - 1] != ' ')
    && (forall i :: 0 <= i && i + 1 < |s| ==> !(s[i] == ' ' && s[i + 1] == ' '))
  }

  const NAME_WIDTH: nat := 39

  /** Primary identifier, two fillers, secondary identifier; no separator when there is no secondary one. */
  function PrintedName(n: Name): string {
    Replaced(if n.given == "" then n.surname else n.surname + "  " + n.given, ' ', '<')
  }

  predicate WellFormed(d: Document) {
    && |d.data.country| == 3 && |d.data.number| == 9 && |d.data.nationality| == 3 && |d.optionalData| == 14
    && d.data.documentType == 'P' && ValidDate(d.data.birth) && ValidDate(d.data.expiry)
    && WellFormedName(d.data.name.surname) && WellFormedName(d.data.name.given) && d.data.name.surname != ""
    && |PrintedName(d.data.name)| <= NAME_WIDTH
  }

  function Digit(n: int): char
    requires 0 <= n <= 9
  {
    ('0' as int + n) as char
  }

  function TwoDigitText(n: int): string
    requires 0 <= n <= 99
  {
    [Digit(n / 10), Digit(n % 10)]
  }

  function DateText(d: Date): (s: string)
    requires ValidDate(d)
    ensures |s| == 6
  {
    TwoDigitText(d.year % 100) + TwoDigitText(d.month) + TwoDigitText(d.day)
  }

  function UpperLine(d: Document): string
    requires WellFormed(d)
  {
    ['P', d.kind] + d.data.country + Padded(PrintedName(d.data.name), NAME_WIDTH)
  }

  /** The lower line with the given check characters at its five check positions: number and nationality, then birth
      and sex, then expiry and optional data. */
  function LowerLine(d: Document, checks: string): string
    requires WellFormed(d) && |checks| == 5
  {
    (d.data.number + [checks[0]] + d.data.nationality)
    + (DateText(d.data.birth) + [checks[1], d.data.gender])
    + (DateText(d.data.expiry) + [checks[2]] + d.optionalData + [checks[3], checks[4]])
  }

  /** The check digits the standard asks for. */
  function CheckDigits(d: Document): string
    requires WellFormed(d)
  {
    var a := Digit(Checksum(d.data.number));
    var b := Digit(Checksum(DateText(d.data.birth)));
    var c := Digit(Checksum(DateText(d.data.expiry)));
    var e := Digit(Checksum(d.optionalData));
    [a, b, c, e, Digit(Checksum(d.data.number + [a] + DateText(d.data.birth) + [b]
                                + DateText(d.data.expiry) + [c] + d.optionalData + [e]))]
  }

  // ---- Inversion ------------------------------------------------------------------------------

  function Spaces(n: nat): (r: string)
    ensures |r| == n && forall i :: 0 <= i < n ==> r[i] == ' '
  {
    if n == 0 then "" else " " + Spaces(n - 1)
  }

  lemma StripOneSpace(s: string)
    requires s != "" ==> s[0] != ' ' && s[|s| - 1] != ' '
    ensures Strip(s) == s && Strip(s + " ") == s
  {
    assert (s + " ")[..|s|] == s;
    if s == "" {
      assert (s + " ")[1..] == "";
    }
  }

  /** Where a well-formed name meets a double space, the split cuts right behind the name. */
  lemma CutsBehind(s: string, rest: string)
    requires WellFormedName(s)
    ensures s + "  " + rest != "" && Split(s + "  " + rest) == [s] + Split(rest)
  {
    var all := s + "  " + rest;
    assert all[|s|] == ' ' && all[|s| + 1] == ' ';
    assert forall j :: 0 <= j < |s| ==> all[j] == s[j];
    var i := FirstDouble(all);
    assert i == |s|;
    assert all[..i] == s && all[i + 2..] == rest;
  }

  lemma NothingToCut(s: string, n: nat)
    requires WellFormedName(s) && n < 2
    ensures Split(s + Spaces(n)) == [s + Spaces(n)]
  {
    var all := s + Spaces(n);
    assert forall i :: 0 <= i < |s| ==> all[i] == s[i];
    assert FirstDouble(all) == |all|;
  }

  /** A name behind which only spaces follow is the stripped first part. */
  lemma FirstPart(s: string, n: nat)
    requires WellFormedName(s)
    ensures Strip(Split(s + Spaces(n))[0]) == s
    ensures n >= 2 ==> Split(s + Spaces(n)) == [s] + Split(Spaces(n - 2))
    ensures n < 2 ==> |Split(s + Spaces(n))| == 1
  {
    StripOneSpace(s);
    if n >= 2 {
      assert s + Spaces(n) == s + "  " + Spaces(n - 2);
      CutsBehind(s, Spaces(n - 2));
    } else {
      NothingToCut(s, n);
      assert s + Spaces(n) == if n == 1 then s + " " else s;
    }
  }

  lemma BlankPart(n: nat)
    ensures Strip(Split(Spaces(n))[0]) == ""
  {
    FirstPart("", n);
    assert "" + Spaces(n) == Spaces(n);
  }

  /** Printed, padded and with its fillers read as spaces again, a name is its text and then spaces. */
  lemma PaddedText(text: string, width: nat)
    requires '<' !in text && |text| <= width
    ensures Replaced(Padded(Replaced(text, ' ', '<'), width), '<', ' ') == text + Spaces(width - |text|)
  {
  }

  lemma OnePart(parts: seq<string>, surname: string)
    requires |parts| == 1 && Strip(parts[0]) == surname
    ensures ParseParts(parts) == Name(surname, "")
  {
  }

  lemma TwoParts(surname: string, given: string, rest: seq<string>)
    requires rest != [] && Strip(surname) == surname && Strip(rest[0]) == given
    ensures ParseParts([surname] + rest) == Name(surname, given)
  {
  }

  lemma SurnameAloneComesBack(surname: string, pad: nat)
    requires WellFormedName(surname)
    ensures ParseParts(Split(surname + Spaces(pad))) == Name(surname, "")
  {
    FirstPart(surname, pad);
    if pad >= 2 {
      BlankPart(pad - 2);
      StripOneSpace(surname);
      TwoParts(surname, "", Split(Spaces(pad - 2)));
    } else {
      OnePart(Split(surname + Spaces(pad)), surname);
    }
  }

  lemma BothNamesComeBack(surname: string, given: string, pad: nat)
    requires WellFormedName(surname) && WellFormedName(given)
    ensures ParseParts(Split(surname + "  " + (given + Spaces(pad)))) == Name(surname, given)
  {
    CutsBehind(surname, given + Spaces(pad));
    FirstPart(given, pad);
    StripOneSpace(surname);
    TwoParts(surname, given, Split(given + Spaces(pad)));
  }

  lemma Regrouped(a: string, b: string, c: string, d: string)
    ensures a + b + c + d == a + b + (c + d)
  {
  }

  lemma PrintedTextIsParsed(text: string)
    requires '<' !in text && |text| <= NAME_WIDTH
    ensures ParseName(Padded(Replaced(text, ' ', '<'), NAME_WIDTH))
         == ParseParts(Split(text + Spaces(NAME_WIDTH - |text|)))
  {
    PaddedText(text, NAME_WIDTH);
  }

  lemma SurnameFieldComesBack(surname: string)
    requires WellFormedName(surname) && |surname| <= NAME_WIDTH
    ensures ParseName(Padded(Replaced(surname, ' ', '<'), NAME_WIDTH)) == Name(surname, "")
  {
    PrintedTextIsParsed(surname);
    SurnameAloneComesBack(surname, NAME_WIDTH - |surname|);
  }

  lemma NoFillerInNames(surname: string, given: string, text: string)
    requires WellFormedName(surname) && WellFormedName(given) && text == surname + "  " + given
    ensures '<' !in text
  {
  }

  lemma FullTextComesBack(surname: string, given: string, text: string, pad: nat)
    requires WellFormedName(surname) && WellFormedName(given) && text == surname + "  " + given
    ensures ParseParts(Split(text + Spaces(pad))) == Name(surname, given)
  {
    Regrouped(surname, "  ", given, Spaces(pad));
    BothNamesComeBack(surname, given, pad);
  }

  lemma FullNameFieldComesBack(surname: string, given: string, text: string)
    requires WellFormedName(surname) && WellFormedName(given)
    requires text == surname + "  " + given && |text| <= NAME_WIDTH
    ensures ParseName(Padded(Replaced(text, ' ', '<'), NAME_WIDTH)) == Name(surname, given)
  {
    NoFillerInNames(surname, given, text);
    PrintedTextIsParsed(text);
    FullTextComesBack(surname, given, text, NAME_WIDTH - |text|);
  }

  /** Names come back, whatever the padding leaves: one filler, many or none. */
  lemma NamesComeBack(n: Name)
    requires WellFormedName(n.surname) && WellFormedName(n.given) && |PrintedName(n)| <= NAME_WIDTH
    ensures ParseName(Padded(PrintedName(n), NAME_WIDTH)) == n
  {
    if n.given == "" {
      SurnameFieldComesBack(n.surname);
    } else {
      FullNameFieldComesBack(n.surname, n.given, n.surname + "  " + n.given);
    }
  }

  predicate ReadableYear(d: Date) {
    1931 <= d.year <= 2030
  }

  lemma TwoDigitsComeBack(n: int)
    requires 0 <= n <= 99
    ensures TwoDigits(TwoDigitText(n)) == Some(n)
  {
  }

  /** A date comes back exactly when its year is one of 1931 to 2030; any other is read as another year or rejected. */
  lemma DateComesBackIff(d: Date)
    requires ValidDate(d)
    ensures ParseMrzDate(DateText(d)) == Some(d) <==> ReadableYear(d)
  {
    var s := DateText(d);
    assert s[..2] == TwoDigitText(d.year % 100) && s[2..4] == TwoDigitText(d.month) && s[4..6] == TwoDigitText(d.day);
    TwoDigitsComeBack(d.year % 100);
    TwoDigitsComeBack(d.month);
    TwoDigitsComeBack(d.day);
  }

  lemma ThreeParts(a: string, b: string, c: string)
    requires |a| == 13 && |b| == 8 && |c| == 23
    ensures var l := a + b + c;
            && |l| == WIDTH && l[..9] == a[..9] && l[10..13] == a[10..13] && l[13..19] == b[..6] && l[20] == b[7]
            && l[21..27] == c[..6]
  {
  }

  lemma LowerFields(d: Document, checks: string)
    requires WellFormed(d) && |checks| == 5
    ensures var l := LowerLine(d, checks);
            && |l| == WIDTH && l[..9] == d.data.number && l[10..13] == d.data.nationality
            && l[13..19] == DateText(d.data.birth) && l[20] == d.data.gender && l[21..27] == DateText(d.data.expiry)
  {
    var a := d.data.number + [checks[0]] + d.data.nationality;
    var b := DateText(d.data.birth) + [checks[1], d.data.gender];
    var c := DateText(d.data.expiry) + [checks[2]] + d.optionalData + [checks[3], checks[4]];
    ThreeParts(a, b, c);
    assert a[..9] == d.data.number && a[10..13] == d.data.nationality;
    assert b[..6] == DateText(d.data.birth) && c[..6] == DateText(d.data.expiry);
  }

  lemma UpperFields(d: Document)
    requires WellFormed(d)
    ensures var l := UpperLine(d);
            && |l| == WIDTH && l[0] == 'P' && l[2..5] == d.data.country && ParseName(l[5..]) == d.data.name
  {
    var l := UpperLine(d);
    assert l[5..] == Padded(PrintedName(d.data.name), NAME_WIDTH);
    NamesComeBack(d.data.name);
  }

  function WithDates(data: PassportData, birth: Option<Date>, expiry: Option<Date>): Parsed {
    if birth.None? || expiry.None? then BadDate
    else Read(data.(birth := birth.value, expiry := expiry.value))
  }

  lemma SameDates(data: PassportData, birth: Option<Date>, expiry: Option<Date>)
    ensures WithDates(data, birth, expiry) == Read(data) <==> birth == Some(data.birth) && expiry == Some(data.expiry)
  {
  }

  lemma LinesComeBack(d: Document, checks: string)
    requires WellFormed(d) && |checks| == 5
    ensures |UpperLine(d)| == WIDTH && |LowerLine(d, checks)| == WIDTH
    ensures var birth, expiry := ParseMrzDate(DateText(d.data.birth)), ParseMrzDate(DateText(d.data.expiry));
            ParseLines(UpperLine(d), LowerLine(d, checks)) == WithDates(d.data, birth, expiry)
  {
    UpperFields(d);
    LowerFields(d, checks);
  }

  lemma LinesComeBackIff(d: Document, checks: string)
    requires WellFormed(d) && |checks| == 5
    ensures |UpperLine(d)| == WIDTH && |LowerLine(d, checks)| == WIDTH
    ensures ParseLines(UpperLine(d), LowerLine(d, checks)) == Read(d.data)
            <==> ReadableYear(d.data.birth) && ReadableYear(d.data.expiry)
  {
    LinesComeBack(d, checks);
    var birth, expiry := DateText(d.data.birth), DateText(d.data.expiry);
    SameDates(d.data, ParseMrzDate(birth), ParseMrzDate(expiry));
    DateComesBackIff(d.data.birth);
    DateComesBackIff(d.data.expiry);
  }

  /** The last two candidates found among the lines. */
  predicate LastTwo(lines: seq<string>, l1: string, l2: string) {
    var found := Candidates(lines);
    |found| >= 2 && found[|found| - 2] == l1 && found[|found| - 1] == l2
  }

  lemma LastTwoDecide(lines: seq<string>, l1: string, l2: string)
    requires |l1| == WIDTH && |l2| == WIDTH && LastTwo(lines, l1, l2)
    ensures ParseOf(lines) == ParseLines(l1, l2)
  {
  }

  /** The parser inverts the layout: whatever the scanner read around it, if the last two candidate lines are a
      passport's, the passport's data come back exactly when both dates lie in 1931 to 2030. The check characters
      are not looked at, so any five do, the right ones included. */
  lemma ParseInvertsLayout(lines: seq<string>, d: Document, checks: string)
    requires WellFormed(d) && |checks| == 5
    requires LastTwo(lines, UpperLine(d), LowerLine(d, checks))
    ensures ParseOf(lines) == Read(d.data) <==> ReadableYear(d.data.birth) && ReadableYear(d.data.expiry)
  {
    LinesComeBackIff(d, checks);
    LastTwoDecide(lines, UpperLine(d), LowerLine(d, checks));
  }

  /** A passport printed with its own check digits on two clean lines is read back, after any other lines. */
  lemma PrintedPassportIsRead(before: seq<string>, d: Document)
    requires WellFormed(d) && ReadableYear(d.data.birth) && ReadableYear(d.data.expiry)
    requires MrzText(UpperLine(d)) && MrzText(LowerLine(d, CheckDigits(d)))
    ensures ParseOf(before + [UpperLine(d), LowerLine(d, CheckDigits(d))]) == Read(d.data)
  {
    LinesComeBackIff(d, CheckDigits(d));
    TwoCleanLines(before, UpperLine(d), LowerLine(d, CheckDigits(d)));
    ParseInvertsLayout(before + [UpperLine(d), LowerLine(d, CheckDigits(d))], d, CheckDigits(d));
  }

  lemma TwoCleanLines(before: seq<string>, l1: string, l2: string)
    requires |l1| == WIDTH && |l2| == WIDTH && MrzText(l1) && MrzText(l2)
    ensures LastTwo(before + [l1, l2], l1, l2)
  {
    CleanLineIsCandidate(before, l1);
    CleanLineIsCandidate(before + [l1], l2);
    assert before + [l1] + [l2] == before + [l1, l2];
  }

  lemma CleanLineIsCandidate(before: seq<string>, line: string)
    requires |line| == WIDTH && MrzText(line)
    ensures Candidates(before + [line]) == Candidates(before) + [line]
  {
    WithoutNothing(' ', line);
    assert (before + [line])[..|before|] == before;
  }
}
