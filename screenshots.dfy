// How the screenshot service names the image files it stores: a file name
// made of the symbol, the minute the picture belongs to and the kind of
// picture, and a folder per account, symbol, year and month. Reading, writing
// and deleting files are not modelled; the base folder is a parameter.

module Screenshots {
  import opened Common
  import opened Text
  import opened Domain

  // ------------------------------------------------------------------ kinds

  /** `ScreenshotType`: Entry = 1 … Setup = 7, Other = 99. A stored value may
    * be any integer. */
  const EntryType: int := 1
  const HigherTimeframeType: int := 2
  const ManagementType: int := 3
  const ExitType: int := 4
  const PreAnalysisType: int := 5
  const PostAnalysisType: int := 6
  const SetupType: int := 7
  const OtherType: int := 99

  /** The tag a kind of picture gets in its file name; every value outside
    * Entry … Setup is tagged "other". */
  function TypeTag(code: int): (r: string)
    ensures '-' !in r && |r| > 0
    ensures r == "other" <==> !(EntryType <= code <= SetupType)
  {
    if code == EntryType then "entry"
    else if code == HigherTimeframeType then "htf"
    else if code == ManagementType then "manage"
    else if code == ExitType then "exit"
    else if code == PreAnalysisType then "pre"
    else if code == PostAnalysisType then "post"
    else if code == SetupType then "setup"
    else "other"
  }

  /** The kind a tag stands for. */
  function TypeOfTag(tag: string): (r: Option<int>)
  {
    if tag == "entry" then Some(EntryType)
    else if tag == "htf" then Some(HigherTimeframeType)
    else if tag == "manage" then Some(ManagementType)
    else if tag == "exit" then Some(ExitType)
    else if tag == "pre" then Some(PreAnalysisType)
    else if tag == "post" then Some(PostAnalysisType)
    else if tag == "setup" then Some(SetupType)
    else if tag == "other" then Some(OtherType)
    else None
  }

  /** The tag of a named kind gives the kind back; any other value comes back
    * as Other. */
  lemma TypeTagRoundTrip(code: int)
    ensures EntryType <= code <= SetupType ==> TypeOfTag(TypeTag(code)) == Some(code)
    ensures !(EntryType <= code <= SetupType) ==> TypeOfTag(TypeTag(code)) == Some(OtherType)
  {
  }

  // ------------------------------------------------------------- timestamps

  /** The value of a run of digits with two more digits after it. */
  lemma DigitsValueAppend(a: string, b: string)
    requires AllDigits(a) && AllDigits(b) && |b| == 2
    ensures AllDigits(a + b)
    ensures DigitsValue(a + b) == DigitsValue(a) * 100 + DigitsValue(b)
  {
    var s := a + b;
    var a' := a + [b[0]];
    assert s[..|s| - 1] == a';
    assert a'[..|a|] == a;
    assert DigitsValue(a') == DigitsValue(a) * 10 + DigitValue(b[0]);
    assert DigitsValue(s) == DigitsValue(a') * 10 + DigitValue(b[1]);
    assert b[..1] == [b[0]] && [b[0]][..0] == [];
    assert DigitsValue(b[..1]) == DigitValue(b[0]);
    assert DigitsValue(b) == DigitsValue(b[..1]) * 10 + DigitValue(b[1]);
  }

  /** `yyyy`: a year below 10000 padded to four digits. */
  function FourDigits(n: nat): (r: string)
    requires n < 10000
    ensures |r| == 4 && AllDigits(r) && DigitsValue(r) == n
  {
    var r := TwoDigits(n / 100) + TwoDigits(n % 100);
    DigitsValueAppend(TwoDigits(n / 100), TwoDigits(n % 100));
    r
  }

  /** `yyyyMMdd`. */
  function DatePart(t: CalendarTime): (r: string)
    requires ValidCalendarTime(t)
    ensures |r| == 8 && AllDigits(r)
  {
    FourDigits(t.year) + TwoDigits(t.month) + TwoDigits(t.day)
  }

  /** `HHmm`. */
  function TimePart(t: CalendarTime): (r: string)
    requires ValidCalendarTime(t)
    ensures |r| == 4 && AllDigits(r)
  {
    TwoDigits(t.hour) + TwoDigits(t.minute)
  }

  /** The date and time a `yyyyMMdd` and an `HHmm` stand for. */
  function ReadStamp(date: string, time: string): (r: CalendarTime)
    requires |date| == 8 && AllDigits(date) && |time| == 4 && AllDigits(time)
  {
    CalendarTime(DigitsValue(date[..4]), DigitsValue(date[4..6]), DigitsValue(date[6..]),
      DigitsValue(time[..2]), DigitsValue(time[2..]))
  }

  /** The stamp keeps every field of the time it prints: reading it back
    * gives the same year, month, day, hour and minute. */
  lemma StampRoundTrip(t: CalendarTime)
    requires ValidCalendarTime(t)
    ensures ReadStamp(DatePart(t), TimePart(t)) == t
  {
    var y, mo, d := FourDigits(t.year), TwoDigits(t.month), TwoDigits(t.day);
    var date := DatePart(t);
    assert date[..4] == y && date[4..6] == mo && date[6..] == d;
    var h, mi := TwoDigits(t.hour), TwoDigits(t.minute);
    var time := TimePart(t);
    assert time[..2] == h && time[2..] == mi;
  }

  // ------------------------------------------------------------- file names

  /** `GenerateFileName`: "{symbol}-{yyyyMMdd}-{HHmm}-{tag}.png". */
  function FileName(symbol: string, t: CalendarTime, code: int): (r: string)
    requires ValidCalendarTime(t)
    ensures StartsWith(r, symbol + "-") && EndsWith(r, ".png")
  {
    var tail := TypeTag(code) + ".png";
    var r := symbol + "-" + (DatePart(t) + "-" + (TimePart(t) + "-" + tail));
    assert r[|r| - |tail|..] == tail;
    assert tail[|tail| - 4..] == ".png";
    r
  }

  /** What a file name says: the symbol, the minute and the tag. */
  datatype ScreenshotName = ScreenshotName(symbol: string, time: CalendarTime, tag: string)

  /** Reading a file name back: four parts separated by '-', a date of eight
    * digits, a time of four and a tag ending in ".png". */
  function ParseFileName(name: string): (r: Option<ScreenshotName>)
  {
    var p := Split(name, '-');
    if |p| == 4 && |p[1]| == 8 && AllDigits(p[1]) && |p[2]| == 4 && AllDigits(p[2]) && EndsWith(p[3], ".png") then
      Some(ScreenshotName(p[0], ReadStamp(p[1], p[2]), p[3][..|p[3]| - 4]))
    else None
  }

  /** Digits hold no '-'. */
  lemma DigitsHaveNoDash(s: string)
    requires AllDigits(s)
    ensures '-' !in s
  {
  }

  /** A part without the separator, then the separator, splits off as the
    * first part. */
  lemma SplitFirst(a: string, rest: string, sep: char)
    requires sep !in a
    ensures Split(a + [sep] + rest, sep) == [a] + Split(rest, sep)
  {
    SplitAtSeparator(a, rest, sep);
    SplitWithoutSeparator(a, sep);
  }

  /** Four parts without the separator, joined by it, split back into the
    * same four parts. */
  lemma SplitFour(a: string, b: string, c: string, d: string, sep: char)
    requires sep !in a && sep !in b && sep !in c && sep !in d
    ensures Split(a + [sep] + (b + [sep] + (c + [sep] + d)), sep) == [a, b, c, d]
  {
    var x3 := c + [sep] + d;
    var x2 := b + [sep] + x3;
    SplitFirst(c, d, sep);
    SplitWithoutSeparator(d, sep);
    SplitFirst(b, x3, sep);
    SplitFirst(a, x2, sep);
  }

  /** A file name splits at '-' into the symbol, the date, the time and the
    * tag with its extension, when the symbol holds no '-'. */
  lemma FileNameParts(symbol: string, t: CalendarTime, code: int)
    requires ValidCalendarTime(t) && '-' !in symbol
    ensures Split(FileName(symbol, t, code), '-') == [symbol, DatePart(t), TimePart(t), TypeTag(code) + ".png"]
  {
    var d, h, tag := DatePart(t), TimePart(t), TypeTag(code);
    DigitsHaveNoDash(d);
    DigitsHaveNoDash(h);
    var g := tag + ".png";
    assert '-' !in g;
    SplitFour(symbol, d, h, g, '-');
  }

  /** A generated file name reads back as the symbol, the minute and the tag
    * it was made from, when the symbol holds no '-'. */
  lemma FileNameRoundTrip(symbol: string, t: CalendarTime, code: int)
    requires ValidCalendarTime(t) && '-' !in symbol
    ensures ParseFileName(FileName(symbol, t, code)) == Some(ScreenshotName(symbol, t, TypeTag(code)))
  {
    FileNameParts(symbol, t, code);
    StampRoundTrip(t);
    var g := TypeTag(code) + ".png";
    assert g[..|g| - 4] == TypeTag(code);
  }

  // ------------------------------------------------------------------ paths

  /** The directory separator of the platform the application runs on. */
  const Separator: char := '\\'

  predicate IsSeparator(c: char) {
    c == '\\' || c == '/'
  }

  /** `Path.IsPathRooted`: a leading separator or a drive letter and colon. */
  predicate IsRooted(p: string) {
    (|p| >= 1 && IsSeparator(p[0])) || (|p| >= 2 && p[1] == ':' && ('a' <= p[0] <= 'z' || 'A' <= p[0] <= 'Z'))
  }

  /** One step of `Path.Combine`: an empty part is skipped, a rooted part
    * starts the path again, any other part is appended after a separator
    * unless the path is empty or already ends in one. */
  function CombineStep(acc: string, p: string): (r: string)
  {
    if p == [] then acc
    else if IsRooted(p) then p
    else if acc == [] || IsSeparator(acc[|acc| - 1]) then acc + p
    else acc + [Separator] + p
  }

  /** `Path.Combine(parts)`. */
  function Combine(acc: string, parts: seq<string>): (r: string)
    decreases |parts|
  {
    if parts == [] then acc else Combine(CombineStep(acc, parts[0]), parts[1..])
  }

  /** A part that `Combine` simply appends after a separator. */
  predicate PlainPart(p: string) {
    p != [] && !IsRooted(p) && !IsSeparator(p[|p| - 1])
  }

  /** Each part after a separator of its own. */
  function Separated(parts: seq<string>): string
    decreases |parts|
  {
    if parts == [] then [] else [Separator] + parts[0] + Separated(parts[1..])
  }

  /** A plain part goes after a separator, and the path stays plain. */
  lemma StepPlain(acc: string, p: string)
    requires PlainPart(acc) && PlainPart(p)
    ensures CombineStep(acc, p) == acc + [Separator] + p
    ensures PlainPart(acc + [Separator] + p)
  {
    var next := acc + [Separator] + p;
    assert next[0] == acc[0] && next[|next| - 1] == p[|p| - 1];
    if |acc| >= 2 { assert next[1] == acc[1]; } else { assert next[1] == Separator; }
  }

  /** Combining plain parts puts exactly one separator before each. */
  lemma {:induction false} CombinePlain(acc: string, parts: seq<string>)
    requires PlainPart(acc)
    requires forall i :: 0 <= i < |parts| ==> PlainPart(parts[i])
    ensures Combine(acc, parts) == acc + Separated(parts)
    decreases |parts|
  {
    if parts != [] {
      var next := acc + [Separator] + parts[0];
      StepPlain(acc, parts[0]);
      CombinePlain(next, parts[1..]);
      var rest := Separated(parts[1..]);
      AppendAssoc(acc + [Separator], parts[0], rest);
      AppendAssoc(acc, [Separator], parts[0] + rest);
      AppendAssoc([Separator], parts[0], rest);
    }
  }

  /** The folder name of a symbol: `ToUpperInvariant`. */
  function SymbolFolder(symbol: string): (r: string)
    ensures |r| == |symbol|
  {
    ToUpper(symbol)
  }

  /** `GenerateFullPath`: base / account / SYMBOL / year / MM / file name. */
  function FullPath(baseDir: string, accountId: int, symbol: string, t: CalendarTime, code: int): (r: string)
    requires ValidCalendarTime(t)
  {
    Combine(baseDir, [IntToString(accountId), SymbolFolder(symbol), IntToString(t.year), TwoDigits(t.month),
      FileName(symbol, t, code)])
  }

  /** A printed integer is a plain path part. */
  lemma IntIsPlain(i: int)
    ensures PlainPart(IntToString(i))
  {
    var s := IntToString(i);
    var n := NatToString(if i < 0 then -i else i);
    assert IsDigit(n[0]) && IsDigit(n[|n| - 1]);
    if i < 0 {
      assert s == "-" + n && s[|s| - 1] == n[|n| - 1];
      if |s| >= 2 { assert s[1] == n[0]; }
    } else {
      if |s| >= 2 { assert IsDigit(s[1]); }
    }
  }

  /** A symbol a path can take as one folder: not empty, no separator and no
    * colon. */
  predicate FolderSymbol(symbol: string) {
    symbol != [] && forall i :: 0 <= i < |symbol| ==> !IsSeparator(symbol[i]) && symbol[i] != ':'
  }

  /** The upper-cased symbol is a plain path part. */
  lemma SymbolFolderIsPlain(symbol: string)
    requires FolderSymbol(symbol)
    ensures PlainPart(SymbolFolder(symbol))
  {
    var s := SymbolFolder(symbol);
    assert s[0] == UpperChar(symbol[0]) && s[|s| - 1] == UpperChar(symbol[|s| - 1]);
    if |s| >= 2 { assert s[1] == UpperChar(symbol[1]); }
  }

  /** The file name is a plain path part. */
  lemma FileNameIsPlain(symbol: string, t: CalendarTime, code: int)
    requires ValidCalendarTime(t) && FolderSymbol(symbol)
    ensures PlainPart(FileName(symbol, t, code))
  {
    var f := FileName(symbol, t, code);
    var head := symbol + "-";
    assert head <= f;
    assert f[0] == head[0] == symbol[0];
    assert f[1] == head[1];
    assert f[|f| - 4..] == ".png";
    assert f[|f| - 1] == 'g';
  }

  /** The month folder is two digits, a plain path part. */
  lemma MonthIsPlain(t: CalendarTime)
    requires ValidCalendarTime(t)
    ensures |TwoDigits(t.month)| == 2 && PlainPart(TwoDigits(t.month))
  {
    var m := TwoDigits(t.month);
    assert IsDigit(m[0]) && IsDigit(m[1]);
  }

  /** For a base folder and a symbol that is one folder, the path is the base
    * folder, then the account id, the upper-cased symbol, the year, the
    * two-digit month and the file name, each after one separator. */
  lemma FullPathLayout(baseDir: string, accountId: int, symbol: string, t: CalendarTime, code: int)
    requires ValidCalendarTime(t) && PlainPart(baseDir) && FolderSymbol(symbol)
    ensures FullPath(baseDir, accountId, symbol, t, code)
      == baseDir + Separated([IntToString(accountId), SymbolFolder(symbol), IntToString(t.year), TwoDigits(t.month),
        FileName(symbol, t, code)])
    ensures |TwoDigits(t.month)| == 2
  {
    IntIsPlain(accountId);
    IntIsPlain(t.year);
    SymbolFolderIsPlain(symbol);
    FileNameIsPlain(symbol, t, code);
    MonthIsPlain(t);
    var parts := [IntToString(accountId), SymbolFolder(symbol), IntToString(t.year), TwoDigits(t.month),
      FileName(symbol, t, code)];
    CombinePlain(baseDir, parts);
  }
}
