/** The string-building half of the importer: the dated folder name, the
    date-based file name and the stem taken from a source file name. */
module Naming {
  import opened Decimal

  /** A capture timestamp, as the metadata lookup produces it. */
  datatype Timestamp = Timestamp(year: nat, month: nat, day: nat, hour: nat, minute: nat, second: nat)

  /** The dated folder name: year, month and day in unpadded decimal joined
      by `_`, then `-` and the description when the description is not empty. */
  function DirName(shot: Timestamp, description: string): string
  {
    var folderName := NatToDecimal(shot.year) + "_" + NatToDecimal(shot.month) + "_" + NatToDecimal(shot.day);
    if description != "" then folderName + "-" + description else folderName
  }

  /** The date-based file stem: year, month and day, `_`, hour, minute and
      second, each in unpadded decimal, with no separator inside either half. */
  function DateName(shot: Timestamp): string
  {
    NatToDecimal(shot.year) + NatToDecimal(shot.month) + NatToDecimal(shot.day) + "_" +
    NatToDecimal(shot.hour) + NatToDecimal(shot.minute) + NatToDecimal(shot.second)
  }

  /** The number of occurrences of `c` in `s`. */
  function Count(s: string, c: char): nat
  {
    if s == [] then 0 else (if s[0] == c then 1 else 0) + Count(s[1..], c)
  }

  lemma {:induction false} CountAppend(s: string, t: string, c: char)
    ensures Count(s + t, c) == Count(s, c) + Count(t, c)
  {
    if s == [] {
      assert s + t == t;
    } else {
      assert (s + t)[1..] == s[1..] + t;
      CountAppend(s[1..], t, c);
    }
  }

  lemma {:induction false} CountDigits(s: string, c: char)
    requires AllDigits(s) && !IsDigit(c)
    ensures Count(s, c) == 0
  {
    if s != [] {
      CountDigits(s[1..], c);
    }
  }

  /** Every character is a digit or `_`. */
  predicate DigitsAndUnderscores(s: string) {
    forall i :: 0 <= i < |s| ==> IsDigit(s[i]) || s[i] == '_'
  }

  /** Without a description the folder name is three decimal numbers
      separated by exactly two underscores; a description is appended after
      a `-` exactly when it is not empty. */
  lemma DirNameFormat(shot: Timestamp, description: string)
    ensures var base := DirName(shot, "");
      DigitsAndUnderscores(base) && Count(base, '_') == 2 && Count(base, '-') == 0 &&
      (DirName(shot, description) == base <==> description == "") &&
      (description != "" ==> DirName(shot, description) == base + "-" + description)
  {
    var y, m, d := NatToDecimal(shot.year), NatToDecimal(shot.month), NatToDecimal(shot.day);
    var base := DirName(shot, "");
    assert base == y + ("_" + (m + ("_" + d)));
    CountAppend(y, "_" + (m + ("_" + d)), '_');
    CountAppend("_", m + ("_" + d), '_');
    CountAppend(m, "_" + d, '_');
    CountAppend("_", d, '_');
    CountDigits(y, '_');
    CountDigits(m, '_');
    CountDigits(d, '_');
    CountAppend(y, "_" + (m + ("_" + d)), '-');
    CountAppend("_", m + ("_" + d), '-');
    CountAppend(m, "_" + d, '-');
    CountAppend("_", d, '-');
    CountDigits(y, '-');
    CountDigits(m, '-');
    CountDigits(d, '-');
    if description != "" {
      assert |DirName(shot, description)| > |base|;
    }
  }

  /** A folder name determines the capture date and the description: two
      files land in the same dated folder only if they were shot on the same
      day and imported with the same description. */
  lemma DirNameInjective(shot1: Timestamp, description1: string, shot2: Timestamp, description2: string)
    requires DirName(shot1, description1) == DirName(shot2, description2)
    ensures shot1.year == shot2.year && shot1.month == shot2.month && shot1.day == shot2.day
    ensures description1 == description2
  {
    DirNameParts(shot1, description1);
    DirNameParts(shot2, description2);
    var tail1, tail2 := DescriptionTail(description1), DescriptionTail(description2);
    var dayPart1 := NatToDecimal(shot1.day) + tail1;
    var dayPart2 := NatToDecimal(shot2.day) + tail2;
    SplitAtSeparator(shot1.year, shot2.year, '_',
      NatToDecimal(shot1.month) + ("_" + dayPart1), NatToDecimal(shot2.month) + ("_" + dayPart2));
    SplitAtSeparator(shot1.month, shot2.month, '_', dayPart1, dayPart2);
    DecimalPrefixCancel(shot1.day, shot2.day, tail1, tail2);
    if description1 != "" && description2 != "" {
      assert description1 == tail1[1..];
      assert description2 == tail2[1..];
    } else {
      assert |tail1| == |tail2|;
    }
  }

  /** What follows the day in a folder name. */
  function DescriptionTail(description: string): (tail: string)
    ensures EndsNumber(tail)
  {
    if description != "" then "-" + description else ""
  }

  lemma DirNameParts(shot: Timestamp, description: string)
    ensures DirName(shot, description) ==
      NatToDecimal(shot.year) + ("_" + (NatToDecimal(shot.month) + ("_" + (NatToDecimal(shot.day) + DescriptionTail(description)))))
  {
    var y, m, d, tail := NatToDecimal(shot.year), NatToDecimal(shot.month), NatToDecimal(shot.day), DescriptionTail(description);
    assert DirName(shot, description) == y + "_" + m + "_" + d + tail;
    assert y + "_" + m + "_" + d + tail == y + ("_" + (m + ("_" + (d + tail))));
  }

  /** A number, a non-digit separator and a rest: both parts are determined. */
  lemma SplitAtSeparator(a: nat, b: nat, sep: char, rest1: string, rest2: string)
    requires !IsDigit(sep)
    requires NatToDecimal(a) + ([sep] + rest1) == NatToDecimal(b) + ([sep] + rest2)
    ensures a == b && rest1 == rest2
  {
    DecimalPrefixCancel(a, b, [sep] + rest1, [sep] + rest2);
    assert rest1 == ([sep] + rest1)[1..];
    assert rest2 == ([sep] + rest2)[1..];
  }

  /** The date name holds exactly one `_`, between the date digits and the
      time digits, and every other character is a decimal digit. */
  lemma DateNameFormat(shot: Timestamp)
    ensures var r := DateName(shot);
      var datePart := NatToDecimal(shot.year) + NatToDecimal(shot.month) + NatToDecimal(shot.day);
      DigitsAndUnderscores(r) && Count(r, '_') == 1 &&
      |datePart| < |r| && r[|datePart|] == '_'
  {
    var datePart := NatToDecimal(shot.year) + NatToDecimal(shot.month) + NatToDecimal(shot.day);
    var timePart := NatToDecimal(shot.hour) + NatToDecimal(shot.minute) + NatToDecimal(shot.second);
    var r := DateName(shot);
    assert r == datePart + ("_" + timePart);
    CountAppend(datePart, "_" + timePart, '_');
    CountAppend("_", timePart, '_');
    CountDigits(datePart, '_');
    CountDigits(timePart, '_');
  }

  /** Without padding the date name is ambiguous: 11 January and 1 November
      at the same time of day give the same name, which is one reason the
      uniqueness probe is needed even when renaming to the date. */
  lemma DateNameNotInjective()
    ensures Timestamp(2023, 1, 11, 8, 0, 0) != Timestamp(2023, 11, 1, 8, 0, 0)
    ensures DateName(Timestamp(2023, 1, 11, 8, 0, 0)) == DateName(Timestamp(2023, 11, 1, 8, 0, 0))
  {
    assert NatToDecimal(11) == "11";
    assert NatToDecimal(1) == "1";
    assert "1" + "11" == "11" + "1";
  }

  /** A capture at 2023-05-07 10:02:09 goes to folder `2023_5_7` and, when
      renamed, is called `202357_1029`. */
  lemma NamingExample()
    ensures DirName(Timestamp(2023, 5, 7, 10, 2, 9), "") == "2023_5_7"
    ensures DirName(Timestamp(2023, 5, 7, 10, 2, 9), "Holiday") == "2023_5_7-Holiday"
    ensures DateName(Timestamp(2023, 5, 7, 10, 2, 9)) == "202357_1029"
  {
    assert NatToDecimal(2023) == "2023";
    assert NatToDecimal(10) == "10";
  }

  /** Python's `s.find(c)`: the index of the first `c` in `s`, or -1. */
  function Find(s: string, c: char): (r: int)
    ensures -1 <= r < |s|
    ensures r == -1 <==> c !in s
    ensures r >= 0 ==> s[r] == c && c !in s[..r]
  {
    if s == [] then -1
    else if s[0] == c then 0
    else
      var f := Find(s[1..], c);
      assert s[1..][..if f < 0 then 0 else f] == s[1..if f < 0 then 1 else f + 1];
      if f == -1 then -1 else f + 1
  }

  /** Python's `s[:k]`, where a negative `k` counts back from the end and an
      index past either end is clamped. */
  function PrefixSlice(s: string, k: int): string
  {
    if k >= 0 then s[..if k <= |s| then k else |s|]
    else s[..if |s| + k >= 0 then |s| + k else 0]
  }

  /** The stem the importer keeps when not renaming: `file[:file.find('.')]`. */
  function StemOf(file: string): string
  {
    PrefixSlice(file, Find(file, '.'))
  }

  /** With a dot in the name, the stem is everything before the first dot. */
  lemma StemBeforeFirstDot(file: string)
    requires '.' in file
    ensures var stem := StemOf(file);
      |stem| < |file| && stem == file[..|stem|] && file[|stem|] == '.' && '.' !in stem
  {
  }

  /** With no dot, `find` gives -1 and the slice drops the last character
      (an empty name stays empty). */
  lemma StemWithoutDot(file: string)
    requires '.' !in file
    ensures file != "" ==> StemOf(file) == file[..|file| - 1]
    ensures file == "" ==> StemOf(file) == ""
  {
  }

  /** Worked cases of the first-dot rule. */
  lemma StemExamples()
    ensures StemOf("a.jpg") == "a"
    ensures StemOf("img") == "im"
  {
    assert Find("a.jpg", '.') == 1;
    assert Find("img", '.') == -1;
  }

  /** The stem the importer starts from: the date name when renaming,
      otherwise the stem of the source file name. */
  function CandidateStem(file: string, shot: Timestamp, renameToDate: bool): string
  {
    if renameToDate then DateName(shot) else StemOf(file)
  }
}
